/**
 Two runs that end in deleting a hold (server/internal/wall/handler.go, DeleteHold): one
 after which a rewritten route and an archived one, saved alike, part ways, and one after
 which an archived route has lost a hold that is still on the wall. HoldDeletion says in
 which states that happens.
 */
module DisplayLimits {
  import opened Wrappers
  import opened HoldRemap
  import opened Homography
  import opened HoldOutline
  import opened WallTables
  import opened WallInvariant
  import opened WallRuns
  import opened WallSafety
  import opened LazyDisplay
  import opened HoldDeletion
  import opened RouteDisplay
  import GreedyMatch
  import HoldRoles
  import IC = ImageChain

  // Ids are drawn from one counter: wall 0, first photo 2, its holds 3 and 4, routes 5 and 6,
  // second photo 8, its hold 9.
  const REWRITTEN: RouteId := 5
  const ARCHIVED: RouteId := 6

  const FIRST_UPLOAD := Upload(0, Full, 0, 1)
  const SECOND_UPLOAD := Upload(0, Partial, 2, 7)
  const FIRST_READ := Read(0, 2, 1)
  const SECOND_READ := Read(0, 8, 2)
  const PARENT_LOAD := Load(8, [3, 4])

  /** A photo with two holds and two routes, of which its reset matches one hold and keeps one route. */
  function Story(box: Box, alignment: Matrix, iou: real): seq<Event> {
    [OnPhotos(CreateWall),
     OnPhotos(StoreObject(0, Full, 0)),
     OnPhotos(FinishUpload(FIRST_UPLOAD)),
     OnReset(MoveJob(2, Processing)),
     OnReset(Write(Load(2, []), [box, box], alignment, [])),
     OnPhotos(ReadActive(0, 2)),
     OnRoutes(SaveNewRoute(FIRST_READ, Bare([3]))),
     OnRoutes(SaveNewRoute(FIRST_READ, Bare([3, 4]))),
     OnPhotos(StoreObject(0, Partial, 2)),
     OnPhotos(FinishUpload(SECOND_UPLOAD)),
     OnReset(LoadParent(PARENT_LOAD)),
     OnReset(MoveJob(8, Processing)),
     OnReset(Write(PARENT_LOAD, [box], alignment, [GreedyMatch.Match(0, 0, iou)])),
     OnReset(Apply(0, 8)),
     OnPhotos(ReadActive(0, 8))]
  }

  function FirstPhoto(active: bool): Image {
    Image(0, 1, active, None, Full, None, None)
  }

  function SecondPhoto(active: bool, review: Review, alignment: Option<Matrix>): Image {
    Image(0, 7, active, Some(2), Partial, Some(review), alignment)
  }

  function FirstHolds(box: Box): map<HoldId, Hold> {
    map[3 := Hold(2, box), 4 := Hold(2, box)]
  }

  function RoutesAsSaved(): map<RouteId, Route> {
    map[5 := Route(0, 2, Bare([3])), 6 := Route(0, 2, Bare([3, 4]))]
  }

  function SavedThen(): map<RouteId, Saved> {
    map[5 := Saved(Bare([3]), 1), 6 := Saved(Bare([3, 4]), 1)]
  }

  // ---------------------------------------------------------------- the first photo

  function Uploaded(): System {
    System(Db({0}, map[2 := FirstPhoto(true)], map[], map[], map[2 := Waiting], map[], {}),
           {1}, {}, {}, {}, {}, 3, [PhotoReplaced(0)], map[])
  }

  function Detected1(box: Box): System {
    Uploaded().(db := Uploaded().db.(holds := FirstHolds(box), jobs := map[2 := Done]), next := 5)
  }

  function RoutesSaved(box: Box): System {
    Detected1(box).(db := Detected1(box).db.(routes := RoutesAsSaved()), seen := {FIRST_READ}, saved := SavedThen(), next := 7)
  }

  lemma FirstUploaded()
    ensures Step(Step(Step(START, OnPhotos(CreateWall)), OnPhotos(StoreObject(0, Full, 0))), OnPhotos(FinishUpload(FIRST_UPLOAD))) == Uploaded()
  {
    var t := Step(Step(START, OnPhotos(CreateWall)), OnPhotos(StoreObject(0, Full, 0)));
    var s := Step(t, OnPhotos(FinishUpload(FIRST_UPLOAD)));
    assert t == System(Db({0}, map[], map[], map[], map[], map[], {}), {1}, {}, {FIRST_UPLOAD}, {}, {}, 2, [], map[]);
    assert PendingImages(t.db, 0) == {};
    NothingGoes(t.db);
    assert s.db.images == map[2 := FirstPhoto(true)];
    assert s.condemned == {};
  }

  lemma NothingGoes(db: Db)
    requires PartialInjection(db.images, db.holds, db.matches) && db.jobs.Keys == db.images.Keys
    ensures WithoutImages(db, {}) == db
  {
    hide ParentIs;
    assert WithoutImages(db, {}).images == db.images && WithoutImages(db, {}).jobs == db.jobs;
    assert WithoutImages(db, {}).holds == db.holds && WithoutImages(db, {}).matches == db.matches;
  }

  lemma FirstDetected(box: Box, alignment: Matrix)
    ensures Step(Step(Uploaded(), OnReset(MoveJob(2, Processing))), OnReset(Write(Load(2, []), [box, box], alignment, []))) == Detected1(box)
  {
    var t := Step(Uploaded(), OnReset(MoveJob(2, Processing)));
    assert t.db.jobs == map[2 := Processing];
    assert Detected(2, 3, [box, box]) == FirstHolds(box);
    var e := Write(Load(2, []), [box, box], alignment, []);
    assert MayWrite(t, e.load, e.boxes, e.ms);
    assert Step(t, OnReset(e)).db.holds == FirstHolds(box) && Step(t, OnReset(e)).db.jobs == map[2 := Done];
  }

  lemma RoutesAreSaved(box: Box)
    ensures Step(Step(Step(Detected1(box), OnPhotos(ReadActive(0, 2))), OnRoutes(SaveNewRoute(FIRST_READ, Bare([3])))),
                 OnRoutes(SaveNewRoute(FIRST_READ, Bare([3, 4])))) == RoutesSaved(box)
  {
    var t := Step(Detected1(box), OnPhotos(ReadActive(0, 2)));
    assert t == Detected1(box).(seen := {FIRST_READ});
    BareIsValid([3]);
    BareIsValid([3, 4]);
    var u := Step(t, OnRoutes(SaveNewRoute(FIRST_READ, Bare([3]))));
    assert u == t.(db := t.db.(routes := map[5 := Route(0, 2, Bare([3]))]), saved := map[5 := Saved(Bare([3]), 1)], next := 6);
  }

  // ---------------------------------------------------------------- its reset

  function ResetUploaded(box: Box): System {
    var s := RoutesSaved(box);
    s.(db := s.db.(images := map[2 := FirstPhoto(true), 8 := SecondPhoto(false, PendingReview, None)], jobs := map[2 := Done, 8 := Waiting]),
       objects := {1, 7}, next := 9)
  }

  function ResetDetected(box: Box, alignment: Matrix): System {
    var s := ResetUploaded(box);
    s.(db := s.db.(images := map[2 := FirstPhoto(true), 8 := SecondPhoto(false, PendingReview, Some(alignment))],
                   holds := FirstHolds(box)[9 := Hold(8, box)], matches := map[3 := MatchRow(8, 9)], jobs := map[2 := Done, 8 := Done]),
       loads := {PARENT_LOAD}, next := 10)
  }

  function ResetOnTheWall(box: Box, alignment: Matrix): System {
    var s := ResetDetected(box, alignment);
    s.(db := s.db.(images := map[2 := FirstPhoto(false), 8 := SecondPhoto(true, Applied, Some(alignment))],
                   routes := map[5 := Route(0, 8, Bare([9])), 6 := Route(0, 2, Bare([3, 4]))]),
       seen := {FIRST_READ, SECOND_READ}, log := [PhotoReplaced(0), ResetApplied(0, map[3 := 9])])
  }

  lemma ResetIsUploaded(box: Box)
    ensures Step(Step(RoutesSaved(box), OnPhotos(StoreObject(0, Partial, 2))), OnPhotos(FinishUpload(SECOND_UPLOAD))) == ResetUploaded(box)
  {
    var t := Step(RoutesSaved(box), OnPhotos(StoreObject(0, Partial, 2)));
    assert t == RoutesSaved(box).(objects := {1, 7}, uploads := {SECOND_UPLOAD}, next := 8);
    assert PendingImages(t.db, 0) == {};
    NothingGoes(t.db);
    assert PendingKeys(t.db, 0) == {};
  }

  function ResetProcessing(box: Box): System {
    var s := ResetUploaded(box);
    s.(db := s.db.(jobs := map[2 := Done, 8 := Processing]), loads := {PARENT_LOAD})
  }

  lemma ResetIsProcessing(box: Box)
    ensures Step(Step(ResetUploaded(box), OnReset(LoadParent(PARENT_LOAD))), OnReset(MoveJob(8, Processing))) == ResetProcessing(box)
  {
    assert IsLoad(ResetUploaded(box).db, PARENT_LOAD);
    var t := Step(ResetUploaded(box), OnReset(LoadParent(PARENT_LOAD)));
    assert t == ResetUploaded(box).(loads := {PARENT_LOAD});
    assert t.db.jobs[8 := Processing] == map[2 := Done, 8 := Processing];
  }

  lemma ResultsFit(db: Db, after: Db, box: Box, alignment: Matrix, ms: seq<GreedyMatch.Match>)
    requires |ms| == 1 && ms[0].newIndex == 0 && ms[0].oldIndex == 0
    requires 8 in db.images && db.images[8].kind == Partial && 8 in db.jobs && db.jobs[8] == Processing
    requires 3 in db.holds && 9 !in db.holds && db.matches == map[]
    requires after == db.(images := db.images[8 := db.images[8].(alignment := Some(alignment))], holds := db.holds[9 := Hold(8, box)],
                          matches := map[3 := MatchRow(8, 9)], jobs := db.jobs[8 := Done])
    ensures forall m :: m in ms ==> m.oldIndex < |PARENT_LOAD.olds|
    ensures WriteResults(db, 8, 9, [box], alignment, PARENT_LOAD.olds, ms) == Ok(after)
  {
    assert Detected(8, 9, [box]) == map[9 := Hold(8, box)];
    assert db.holds + map[9 := Hold(8, box)] == db.holds[9 := Hold(8, box)];
    var aligned := Found(db, 8, 9, [box]).(images := Aligned(db.images, 8, alignment));
    assert ms[..0] == [];
    assert InsertMatches(aligned, 8, 9, [3, 4], ms) == InsertMatch(aligned, 8, 3, 9);
    assert InsertMatch(aligned, 8, 3, 9) == Some(aligned.(matches := map[3 := MatchRow(8, 9)]));
  }

  lemma ResetIsDetected(box: Box, alignment: Matrix, iou: real)
    ensures Step(ResetProcessing(box), OnReset(Write(PARENT_LOAD, [box], alignment, [GreedyMatch.Match(0, 0, iou)]))) == ResetDetected(box, alignment)
  {
    hide WriteResults;
    var t := ResetProcessing(box);
    OneMatchFits(iou);
    assert MayWrite(t, PARENT_LOAD, [box], [GreedyMatch.Match(0, 0, iou)]);
    ResultsFit(t.db, ResetDetected(box, alignment).db, box, alignment, [GreedyMatch.Match(0, 0, iou)]);
  }

  lemma OneMatchFits(iou: real)
    ensures WellIndexed([GreedyMatch.Match(0, 0, iou)], 1, 2)
  {
  }

  lemma RoutesMove(box: Box, alignment: Matrix)
    ensures MovedRoutes(ResetDetected(box, alignment).db.routes, 2, 8, map[3 := 9]) == ResetOnTheWall(box, alignment).db.routes
    ensures forall r :: r in RoutesAsSaved() ==> !Rewritten(RoutesAsSaved()[r].holds, map[3 := 9]).BadRoles?
  {
    hide Rewritten;
    OneRouteMoves();
  }

  lemma PhotosSwitch(box: Box, alignment: Matrix)
    ensures 8 in ResetDetected(box, alignment).db.images
    ensures Activated(ResetDetected(box, alignment).db.images, 0, 8) == ResetOnTheWall(box, alignment).db.images
  {
  }

  lemma ResetApplies(box: Box, alignment: Matrix)
    ensures ApplyReset(ResetDetected(box, alignment).db, 0, 8) == Ok(ResetOnTheWall(box, alignment).db)
  {
    hide Rewritten, MatchesOf, MovedRoutes, Activated, RoutesAsSaved;
    OneMapSoFar(box, alignment);
    RoutesMove(box, alignment);
    PhotosSwitch(box, alignment);
    assert ResetDetected(box, alignment).db.routes == RoutesAsSaved();
    assert ApplyRefusal(ResetDetected(box, alignment).db, 0, 8).None?;
  }

  lemma OneMapSoFar(box: Box, alignment: Matrix)
    ensures MatchesOf(ResetDetected(box, alignment).db, 8) == map[3 := 9]
  {
  }

  lemma ResetIsApplied(box: Box, alignment: Matrix)
    ensures Step(Step(ResetDetected(box, alignment), OnReset(Apply(0, 8))), OnPhotos(ReadActive(0, 8))) == ResetOnTheWall(box, alignment)
  {
    hide ApplyReset, MatchesOf;
    ResetApplies(box, alignment);
    OneMapSoFar(box, alignment);
    var t := Step(ResetDetected(box, alignment), OnReset(Apply(0, 8)));
    assert t == ResetOnTheWall(box, alignment).(seen := {FIRST_READ});
  }

  lemma OneRouteMoves()
    ensures Rewritten(Bare([3]), map[3 := 9]) == Complete(Bare([9]))
    ensures Rewritten(Bare([3, 4]), map[3 := 9]) == Incomplete
  {
    assert [3, 4][1] == 4 && 4 in [3, 4];
    assert [3][1..] == [];
    assert Kept([3], map[3 := 9]) == [9];
  }

  // ---------------------------------------------------------------- the whole story

  lemma StoryPrefix(box: Box, alignment: Matrix, iou: real, k: nat)
    requires k < 15
    ensures After(Story(box, alignment, iou)[..k + 1]) == Step(After(Story(box, alignment, iou)[..k]), Story(box, alignment, iou)[k])
  {
    var events := Story(box, alignment, iou);
    hide Story, Step;
    assert |events| == 15 ==> events[..k + 1][..k] == events[..k];
    StoryLength(box, alignment, iou);
  }

  lemma StoryLength(box: Box, alignment: Matrix, iou: real)
    ensures |Story(box, alignment, iou)| == 15
  {
  }

  lemma StoryHappens(box: Box, alignment: Matrix, iou: real)
    ensures After(Story(box, alignment, iou)) == ResetOnTheWall(box, alignment)
  {
    hide Step, Uploaded, Detected1, RoutesSaved, ResetUploaded, ResetProcessing, ResetDetected, ResetOnTheWall, After;
    var events := Story(box, alignment, iou);
    NothingYet();
    assert events[..0] == [] && events[..15] == events;
    forall k: nat | k < 15 ensures After(events[..k + 1]) == Step(After(events[..k]), events[k]) { StoryPrefix(box, alignment, iou, k); }
    FirstUploaded();
    FirstDetected(box, alignment);
    RoutesAreSaved(box);
    ResetIsUploaded(box);
    ResetIsProcessing(box);
    ResetIsDetected(box, alignment, iou);
    ResetIsApplied(box, alignment);
    assert After(events[..0 + 1]) == Step(START, events[0]);
    assert After(events[..1 + 1]) == Step(Step(START, events[0]), events[1]);
    assert After(events[..2 + 1]) == Uploaded();
    assert After(events[..3 + 1]) == Step(Uploaded(), events[3]);
    assert After(events[..4 + 1]) == Detected1(box);
    assert After(events[..5 + 1]) == Step(Detected1(box), events[5]);
    assert After(events[..6 + 1]) == Step(Step(Detected1(box), events[5]), events[6]);
    assert After(events[..7 + 1]) == RoutesSaved(box);
    assert After(events[..8 + 1]) == Step(RoutesSaved(box), events[8]);
    assert After(events[..9 + 1]) == ResetUploaded(box);
    assert After(events[..10 + 1]) == Step(ResetUploaded(box), events[10]);
    assert After(events[..11 + 1]) == ResetProcessing(box);
    assert After(events[..12 + 1]) == ResetDetected(box, alignment);
    assert After(events[..13 + 1]) == Step(ResetDetected(box, alignment), events[13]);
    assert After(events[..14 + 1]) == ResetOnTheWall(box, alignment);
  }

  lemma NothingYet()
    ensures After([]) == START
  {
  }

  // ---------------------------------------------------------------- what the two routes show

  ghost function ShowsNow(db: Db, r: RouteId): Outcome
    requires r in db.routes
  {
    IC.Shown(TablesOf(db), 8, db.routes[r].image, db.routes[r].holds)
  }

  /** On the second photo a route of the first goes through one map. */
  lemma ArchivedShows(db: Db, ids: seq<HoldId>)
    requires 8 in db.images && db.images[8].parent == Some(2)
    ensures IC.Shown(TablesOf(db), 8, 2, Bare(ids)) == Ok(Bare(Kept(ids, MatchesOf(db, 8))))
  {
    hide MatchesOf, TablesOf, IC.Shown;
    TablesAt(db, 8);
    ShownInPlace(TablesOf(db), 2, Bare(ids));
    ShownThroughParent(TablesOf(db), 8, 2, 2, Bare(ids));
  }

  lemma BothShowNine(box: Box, alignment: Matrix)
    ensures var db := ResetOnTheWall(box, alignment).db;
      ShowsNow(db, REWRITTEN) == ShowsNow(db, ARCHIVED) == Ok(Bare([9]))
  {
    var db := ResetOnTheWall(box, alignment).db;
    ShownInPlace(TablesOf(db), 8, Bare([9]));
    ArchivedShows(db, [3, 4]);
    assert MatchesOf(db, 8) == map[3 := 9];
    KeptOfBoth();
  }

  lemma KeptOfBoth()
    ensures Kept([3, 4], map[3 := 9]) == [9] && Kept([3, 4], map[]) == []
  {
    var none: Matches := map[];
    assert [3, 4][1..] == [4] && [4][1..] == [];
    assert Kept([4], map[3 := 9]) == [] && Kept([4], none) == [];
  }

  lemma AfterDeletion(box: Box, alignment: Matrix, x: HoldId)
    requires x == 3 || x == 9
    ensures var db := WithoutHolds(ResetOnTheWall(box, alignment).db, {x});
      && db.routes == ResetOnTheWall(box, alignment).db.routes
      && ShowsNow(db, REWRITTEN) == Ok(Bare([9])) && ShowsNow(db, ARCHIVED) == Ok(Bare([]))
  {
    var before := ResetOnTheWall(box, alignment).db;
    var db := WithoutHolds(before, {x});
    ShownInPlace(TablesOf(db), 8, Bare([9]));
    ArchivedShows(db, [3, 4]);
    DeletionStrikes(before, x, 8);
    assert MatchesOf(before, 8) == map[3 := 9];
    assert MatchesOf(db, 8) == map[];
    KeptOfBoth();
  }

  /** A run with a timely deletion: both routes showed the hold, the archived one loses it, the rewritten one keeps the dead id. */
  lemma RewrittenRoutesKeepDeletedHolds(box: Box, alignment: Matrix, iou: real)
    ensures
      var events := Story(box, alignment, iou);
      var (s, t) := (After(events), After(events + [OnRoutes(DeleteHold(SECOND_READ, 9))]));
      && IsActive(s.db, 0, 8) && 9 in s.db.holds && s.db.holds[9].image == 8 && 9 !in t.db.holds
      && REWRITTEN in s.db.routes && ARCHIVED in s.db.routes && t.db.routes == s.db.routes
      && ShowsNow(s.db, REWRITTEN) == ShowsNow(s.db, ARCHIVED) == Ok(Bare([9]))
      && ShowsNow(t.db, ARCHIVED) == Ok(Bare([])) && ShowsNow(t.db, REWRITTEN) == Ok(Bare([9]))
  {
    hide Story, After, ShowsNow, ActiveHeirs;
    StoryHappens(box, alignment, iou);
    AfterOneMore(Story(box, alignment, iou), OnRoutes(DeleteHold(SECOND_READ, 9)));
    BothShowNine(box, alignment);
    AfterDeletion(box, alignment, 9);
  }

  /** A run with a late deletion: it read the first photo, lands after the reset, and the archived route loses a hold that is still there. */
  lemma LateDeletionsDropLiveHolds(box: Box, alignment: Matrix, iou: real)
    ensures
      var events := Story(box, alignment, iou);
      var (s, t) := (After(events), After(events + [OnRoutes(DeleteHold(FIRST_READ, 3))]));
      && IsActive(s.db, 0, 8) && 3 in s.db.holds && s.db.holds[3].image == 2 && 9 in t.db.holds
      && ARCHIVED in s.db.routes && t.db.routes == s.db.routes
      && ShowsNow(s.db, ARCHIVED) == Ok(Bare([9])) && ShowsNow(t.db, ARCHIVED) == Ok(Bare([]))
  {
    hide Story, After, ShowsNow, ActiveHeirs;
    StoryHappens(box, alignment, iou);
    AfterOneMore(Story(box, alignment, iou), OnRoutes(DeleteHold(FIRST_READ, 3)));
    BothShowNine(box, alignment);
    AfterDeletion(box, alignment, 3);
  }
}
