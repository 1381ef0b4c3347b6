/**
 Every interleaving of wall requests, detection workers and storage clean-up.

 A run is any list of events; an event whose guard fails is refused and changes
 nothing. A handler that reads before it locks is two events with a remembered
 snapshot, so stale snapshots occur. A crash is a request that never commits.
 `log` and `saved` only record what happened; no guard reads them.
 */
module WallRuns {
  import opened Wrappers
  import opened HoldRemap
  import opened Homography
  import opened HoldOutline
  import opened WallTables
  import opened WallInvariant
  import GreedyMatch
  import HoldRoles
  import IC = ImageChain

  // ---------------------------------------------------------------- what a hold has become

  function TablesOf(db: Db): IC.Tables {
    IC.Tables(map i | i in db.images :: db.images[i].parent, map i | i in db.images :: MatchesOf(db, i))
  }

  function Bare(ids: seq<HoldId>): RouteHolds {
    RouteHolds(ids, Absent)
  }

  /** What a route of the single hold `x` shows on a photo. */
  ghost function Heirs(db: Db, on: ImageId, x: HoldId): set<HoldId>
    requires x in db.holds
  {
    var shown := IC.Shown(TablesOf(db), on, db.holds[x].image, Bare([x]));
    if shown.Ok? then set y | y in shown.value.ids else {}
  }

  ghost function ActiveHeirs(db: Db, wall: WallId, x: HoldId): set<HoldId>
    requires x in db.holds
  {
    set a, y | a in db.images && IsActive(db, wall, a) && y in Heirs(db, a, x) :: y
  }

  // ---------------------------------------------------------------- the state

  /** A photo already in storage whose row is not committed yet. */
  datatype Upload = Upload(wall: WallId, kind: Kind, snapshot: ImageId, key: Key)

  /** The active image some request read, and the length of the log at that moment. */
  datatype Read = Read(wall: WallId, image: ImageId, at: nat)

  /** The holds of the parent a worker read before inference. */
  datatype Load = Load(image: ImageId, olds: seq<HoldId>)

  /** A deletion is noted with what the hold had become on the photo then active. */
  datatype Entry =
    | ResetApplied(wall: WallId, matches: Matches)
    | PhotoReplaced(wall: WallId)
    | HoldDeleted(wall: WallId, hold: HoldId, heirs: set<HoldId>)

  datatype Saved = Saved(holds: RouteHolds, at: nat)

  /** `condemned` are keys whose object some request deletes on its own, outside the queue. */
  datatype System = System(db: Db, objects: set<Key>, condemned: set<Key>, uploads: set<Upload>, seen: set<Read>,
                           loads: set<Load>, next: nat, log: seq<Entry>, saved: map<RouteId, Saved>)

  datatype PhotoEvent =
    | CreateWall
    | ReadActive(wall: WallId, image: ImageId)
    | StoreObject(wall: WallId, kind: Kind, snapshot: ImageId)
    | FinishUpload(upload: Upload)
    | AbandonUpload(upload: Upload, cleanUp: bool)
    | Discard(wall: WallId, image: ImageId)
    | RemoveWall(wall: WallId)
    | DeleteQueuedObject(key: Key, dequeued: bool)
    | DeleteCondemnedObject(key: Key)

  datatype ReviewEvent =
    | MoveJob(image: ImageId, status: JobStatus)
    | LoadParent(load: Load)
    | Write(load: Load, boxes: seq<Box>, alignment: Matrix, ms: seq<GreedyMatch.Match>)
    | Rematch(wall: WallId, image: ImageId, oldHold: HoldId, newHold: Option<HoldId>)
    | RemoveResetHold(wall: WallId, image: ImageId, hold: HoldId)
    | Restore(wall: WallId, image: ImageId, oldHold: HoldId, projected: Box)
    | Apply(wall: WallId, image: ImageId)

  datatype RouteEvent =
    | AddHold(read: Read, box: Box)
    | DeleteHold(read: Read, hold: HoldId)
    | SaveNewRoute(read: Read, holds: RouteHolds)
    | SaveRoute(read: Read, route: RouteId, holds: RouteHolds)
    | DeleteRoute(route: RouteId)

  datatype Event = OnPhotos(photo: PhotoEvent) | OnReset(review: ReviewEvent) | OnRoutes(change: RouteEvent)

  const START := System(Db({}, map[], map[], map[], map[], map[], {}), {}, {}, {}, {}, {}, 0, [], map[])

  function PendingKeys(db: Db, wall: WallId): set<Key> {
    set i | i in PendingImages(db, wall) && i in db.images :: db.images[i].key
  }

  /** Partial uploads need an active image when they start; the active image is read before the photo is stored. */
  predicate MayStore(s: System, wall: WallId, kind: Kind, snapshot: ImageId) {
    wall in s.db.walls && (kind == Partial ==> IsActive(s.db, wall, snapshot))
  }

  ghost predicate IsLoad(db: Db, load: Load) {
    && load.image in db.images && db.images[load.image].parent.Some?
    && HoldRoles.NoRepeats(load.olds)
    && forall h :: h in load.olds <==> h in db.holds && db.holds[h].image == db.images[load.image].parent.value
  }

  /** What a worker may hand to the result transaction. */
  ghost predicate MayWrite(s: System, load: Load, boxes: seq<Box>, ms: seq<GreedyMatch.Match>) {
    && (load in s.loads || load.olds == [])
    && WellIndexed(ms, |boxes|, |load.olds|)
  }

  ghost predicate MaySave(s: System, read: Read, holds: RouteHolds) {
    read in s.seen && read.image in s.db.images && HoldRoles.ValidRoles(holds)
  }

  ghost function UploadStep(s: System, u: Upload): System {
    var rest := s.(uploads := s.uploads - {u}, next := s.next + 1);
    match CommitUpload(s.db, u.wall, u.kind, u.snapshot, u.key, s.next)
    case Err(_) => rest.(condemned := s.condemned + {u.key})
    case Ok(db) =>
      rest.(db := db, condemned := s.condemned + PendingKeys(s.db, u.wall),
            log := if u.kind == Full then s.log + [PhotoReplaced(u.wall)] else s.log)
  }

  ghost function WriteStep(s: System, load: Load, boxes: seq<Box>, alignment: Matrix, ms: seq<GreedyMatch.Match>): System
    requires MayWrite(s, load, boxes, ms)
  {
    match WriteResults(s.db, load.image, s.next, boxes, alignment, load.olds, ms)
    case Err(_) => s
    case Ok(db) => s.(db := db, next := s.next + |boxes|)
  }

  ghost function ApplyStep(s: System, wall: WallId, image: ImageId): System {
    match ApplyReset(s.db, wall, image)
    case Err(_) => s
    case Ok(db) => s.(db := db, log := s.log + [ResetApplied(wall, MatchesOf(s.db, image))])
  }

  ghost function RestoreStep(s: System, wall: WallId, image: ImageId, oldHold: HoldId, projected: Box): System {
    if RestoreRefusal(s.db, wall, image, oldHold).Some? then s
    else match RestoreHold(s.db, image, oldHold, s.next, projected)
      case Err(_) => s
      case Ok(db) => s.(db := db, next := s.next + 1)
  }

  ghost function PlaceRoute(s: System, id: RouteId, read: Read, holds: RouteHolds): System {
    s.(db := s.db.(routes := s.db.routes[id := Route(read.wall, read.image, holds)]),
       saved := s.saved[id := Saved(holds, read.at)])
  }

  function WithoutRoute(routes: map<RouteId, Route>, route: RouteId): map<RouteId, Route> {
    map r | r in routes && r != route :: routes[r]
  }

  ghost function PhotoStep(s: System, e: PhotoEvent): System {
    match e
    case CreateWall => s.(db := s.db.(walls := s.db.walls + {s.next}), next := s.next + 1)
    case ReadActive(wall, image) =>
      if IsActive(s.db, wall, image) then s.(seen := s.seen + {Read(wall, image, |s.log|)}) else s
    case StoreObject(wall, kind, snapshot) =>
      if MayStore(s, wall, kind, snapshot)
      then s.(objects := s.objects + {s.next}, uploads := s.uploads + {Upload(wall, kind, snapshot, s.next)}, next := s.next + 1)
      else s
    case FinishUpload(u) => if u in s.uploads then UploadStep(s, u) else s
    case AbandonUpload(u, cleanUp) =>
      if u in s.uploads
      then s.(uploads := s.uploads - {u}, condemned := if cleanUp then s.condemned + {u.key} else s.condemned)
      else s
    case Discard(wall, image) =>
      (match DiscardReset(s.db, wall, image)
       case None => s
       case Some(db) => s.(db := db, condemned := s.condemned + {s.db.images[image].key}))
    case RemoveWall(wall) =>
      (match DeleteWall(s.db, wall)
       case None => s
       case Some(db) => s.(db := db))
    case DeleteQueuedObject(key, dequeued) =>
      if key in s.db.queued
      then s.(objects := s.objects - {key}, db := s.db.(queued := if dequeued then s.db.queued - {key} else s.db.queued))
      else s
    case DeleteCondemnedObject(key) => if key in s.condemned then s.(objects := s.objects - {key}) else s
  }

  ghost function ReviewStep(s: System, e: ReviewEvent): System {
    match e
    case MoveJob(image, status) =>
      if image in s.db.jobs && s.db.jobs[image] in {Waiting, Processing} && status != Done
      then s.(db := s.db.(jobs := s.db.jobs[image := status]))
      else s
    case LoadParent(load) => if IsLoad(s.db, load) then s.(loads := s.loads + {load}) else s
    case Write(load, boxes, alignment, ms) => if MayWrite(s, load, boxes, ms) then WriteStep(s, load, boxes, alignment, ms) else s
    case Rematch(wall, image, oldHold, newHold) =>
      (match UpdateResetMatch(s.db, wall, image, oldHold, newHold)
       case Err(_) => s
       case Ok(db) => s.(db := db))
    case RemoveResetHold(wall, image, hold) =>
      (match DeleteResetHold(s.db, wall, image, hold)
       case Err(_) => s
       case Ok(db) => s.(db := db))
    case Restore(wall, image, oldHold, projected) => RestoreStep(s, wall, image, oldHold, projected)
    case Apply(wall, image) => ApplyStep(s, wall, image)
  }

  ghost function RouteStep(s: System, e: RouteEvent): System {
    match e
    case AddHold(read, box) =>
      if read in s.seen && read.image in s.db.images
      then s.(db := s.db.(holds := s.db.holds[s.next := Hold(read.image, box)]), next := s.next + 1)
      else s
    case DeleteHold(read, hold) =>
      if read in s.seen && hold in s.db.holds && s.db.holds[hold].image == read.image
      then s.(db := WithoutHolds(s.db, {hold}), log := s.log + [HoldDeleted(read.wall, hold, ActiveHeirs(s.db, read.wall, hold))])
      else s
    case SaveNewRoute(read, holds) =>
      if MaySave(s, read, holds) then PlaceRoute(s, s.next, read, holds).(next := s.next + 1) else s
    case SaveRoute(read, route, holds) =>
      if MaySave(s, read, holds) && route in s.db.routes && s.db.routes[route].wall == read.wall
      then PlaceRoute(s, route, read, holds)
      else s
    case DeleteRoute(route) => s.(db := s.db.(routes := WithoutRoute(s.db.routes, route)))
  }

  ghost function Step(s: System, e: Event): System {
    match e
    case OnPhotos(p) => PhotoStep(s, p)
    case OnReset(r) => ReviewStep(s, r)
    case OnRoutes(c) => RouteStep(s, c)
  }

  ghost function After(events: seq<Event>): System {
    if events == [] then START else Step(After(events[..|events| - 1]), events[|events| - 1])
  }
}
