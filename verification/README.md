# Spray wall: a verified model

This project models the parts of the spray wall application whose correctness depends on
many steps working together, and proves what they promise over all inputs, all runs and
all interleavings.

* **`wall/`** — photos of a wall, their partial resets and the match maps between photos.
  `WallTables` gives every transaction as a function on table contents, `WallStore` gives
  the same handlers as methods that change the tables statement by statement,
  `WallInvariant` what each transaction keeps, `WallRuns` every interleaving of requests,
  detection workers and storage clean-up (handlers that read before they lock are two
  events with a remembered snapshot, so stale snapshots occur), `WallSafety` the invariant
  of all reachable states. `LazyDisplay` is what a route shows on a later photo,
  `HoldDeletion` what deleting a hold does to that, and `RouteDisplay` the main result:
  after every run, what a route shows on the active photo is its saved holds carried
  through every map applied since, whether a reset rewrote it at once or left it to be
  translated on demand, less what hold deletions took, hold by hold in the roles it was
  saved with. `DisplayLimits` has two runs that show what they can take. `WallLaws` says of
  each transaction exactly when it succeeds and what it changes, and `StorageRuns` that no
  stored object is ever forgotten, and `RouteKeeping` that no route is. `Homography`, `HoldOutline` and `ResetPreview` are the geometry
  over the reals and the review screen.
* **`route/`** — hold remapping along the photo ancestry (`HoldRemap`, `HoldRoles`,
  `ImageChain`), circuits with routes hidden from their owner (`Circuits`), the paged
  activity feed (`Activity`, `ActivityCursor`) and the Flash rule (`FlashLog`).
* **`worker/`** — the leased detection-job queue (`JobQueue`), that its jobs can always be
  finished (`JobProgress`), and greedy hold matching (`GreedyMatch`).
* **`user/`** — sessions, revocation and single sign-on takeover (`Accounts`,
  `AccountStore`, `Sessions`), and who may sign in as whom with which password after any run
  (`AccountHistory`).
* **`web/`** — one stored session refreshed from many tabs (`TabRefresh`, `TabRuns`) and the
  filters in the address bar (`RouteFilters`).
* **`middleware/`** — the fixed-window rate limiter (`RateLimit`).
* **`common/`** — shared result types and sorting.

`dafny verify dfyconfig.toml` checks the whole project.

## Where the code does less than one might expect

Each of these is proved, with the exact condition where there is one.

* Replacing a circuit first shifts all positions by one more than the new total. Positions
  are unique and that is checked row by row, so the shift can be refused: on a gapless
  circuit it is safe in every row order if and only if the new list has at most one route
  fewer than the visible one (`ShorteningByTwoCanBeRefused`, `ShorteningThreeToOne`).
* Deleting a hold of the active photo reaches archived routes but leaves the dead id in
  routes a reset rewrote, and a deletion that read the active photo before a reset was
  applied can take a live hold out of archived routes. `DisplayLimits` has a run for each.
  `HoldDeletion` says exactly when what a route shows survives a deletion, when a late
  deletion is harmless to every route, and when a timely one is to a given route. The
  display theorem holds of all runs and names what was lost.
* A tab that is frozen inside the lock for a lease or more lets another tab send a second
  refresh request; for less it never does (`FrozenTabCausesASecondRequest`).
* The projected bounding box of a hold covers the hold if and only if the four corner
  denominators share a sign; otherwise some point of the box lands outside it.
* Projecting back succeeds only while the first denominator is at most 1e12, because of the
  guard on the second one.
* The limiter’s interval bound is 2·limit−1, one less than two full windows, and is attained.
* Two replacements of a circuit are not always the second alone: a shorter first list pulls
  hidden routes forward for good (`ReplacingTwice` says exactly when).
* Saved list state is restored into any address without the current parameter names; the
  older `holdId` is not among them, so its holds join the restored ones.

## Assumptions on the schema and the platform

Ids are unique and never reused (an increasing counter stands for fresh UUIDs and tokens).
Identities are unique on issuer and subject. That emails are unique on their folded form
is an assumption beyond the schema, whose unique constraint is case-sensitive and whose
index on folded emails is a plain one. A hold match has
its new hold as primary key and a unique old hold, and goes with either hold or its image;
holds, matches and jobs go with their image; a parent reference becomes NULL with its
parent; an alignment starts NULL; `CreateWallImage` makes an active image without a parent.
Each transaction is atomic; uniqueness of circuit positions is checked row by row. Trimming
is idempotent, grade names are upper case, and a printed whole number reads back.

## Model

| member | source | states |
|---|---|---|
| RouteDisplay.RoutesShowTheReplay | server/internal/route/legacy_remap.go:19-78 | Main result. After any run whatever, a route on the active photo shows its saved holds and roles carried through every match map applied since it was saved, in order, whether resets rewrote it or left it to be translated on demand, once what deletions took is left out of both; and exactly that if deletions took nothing still there |
| RouteDisplay.HarmlessRunsShowTheReplay | server/internal/route/legacy_remap.go:19-78 | If each deletion landed while its photo was active, or when its hold had become nothing on the active one, what deletions took is just the deleted holds, and equality is exact unless some were deleted since |
| RouteDisplay.ShownHoldsKeepTheirRoles | server/internal/route/legacy_remap.go:19-78 | After any run every hold a route shows on the active photo stands for exactly one saved hold, the one the applied maps have made it from, and has a role if and only if that one was saved with it; and every saved hold that has become something there is shown unless a deletion took it |
| RouteDisplay.ReplayTraces | server/internal/route/legacy_remap.go:177-203 | Hold by hold and role by role, what the saved holds have become through the applied maps is what their replay shows |
| RouteDisplay.ShownRolesStayValid | server/internal/route/legacy_remap.go:19-78 | After any run what any photo shows of any route, stored or translated on demand along the whole chain, has valid roles: within the shown holds, at most one a hold |
| RouteDisplay.EveryRunDisplays | server/internal/wall/reset.go:612-679 | The invariant behind it over all runs: every route, and every photo some request has read but not yet saved onto, tracks the replay |
| RouteDisplay.ApplyCarries | server/internal/wall/reset.go:612-679 | Applying a reset carries what every route showed through the reset’s map, for rewritten and archived routes alike |
| HoldDeletion.ShownStaysExactlyWhen | server/internal/wall/handler.go:612-651 | On whatever photo the hold was, what a photo shows of a route survives the deletion unchanged if and only if the route is saved on that very photo, or on one descending from the hold’s, or shows nothing the hold had become there |
| HoldDeletion.LateDeletionIsHarmlessExactlyWhen | server/internal/wall/handler.go:612-651 | A deletion landing after its photo was replaced changes no possible route, not even up to the deleted hold, if and only if a route of that hold alone shows nothing on the active photo |
| HoldDeletion.TimelyDeletionKeepsExactlyWhen | server/internal/wall/handler.go:612-651 | A timely deletion leaves a route showing its replay if and only if the route is saved on the active photo or the hold is not among what it showed |
| HoldDeletion.DeletionReachesOnlyHeirs | server/internal/wall/handler.go:612-651 | What any photo shows of any route is the same before and after a deletion once what the hold had become there is left out |
| HoldDeletion.DeletionAddsNothing | server/internal/wall/handler.go:612-651 | Whatever any photo still shows of a route after a deletion it showed before, in the same roles |
| HoldDeletion.DeletionShows | server/internal/wall/handler.go:612-651 | Against any list the shown one mirrored before (everything shown comes from it in the same roles, and only lost holds are missing) a deletion costs no more than what the hold had become |
| LazyDisplay.ShownThroughParent | server/internal/route/legacy_remap.go:27-77 | Showing on a reset photo is showing on its parent and then translating once more |
| LazyDisplay.FullPhotoShowsNothing | server/internal/route/legacy_remap.go:27-77 | A photo without a parent shows nothing of routes saved on other photos |
| RouteDisplay.FullUploadEmptiesTheDisplay | server/internal/wall/handler.go:396-477 | In any run, once a full upload commits no route saved before it shows anything on the new photo |
| LazyDisplay.AgreementThroughMatches | server/internal/route/legacy_remap.go:177-203 | Two hold lists that agree but for some holds agree after any map but for what it makes of those |
| LazyDisplay.PartThroughMatches | server/internal/route/legacy_remap.go:177-203 | A list whose every hold is in another, in the same roles, stays such a part through any map under which no two holds become one |
| LazyDisplay.ShownRolesAreValid | server/internal/route/legacy_remap.go:19-78 | In any sound state valid roles stay valid along the whole walk, whatever is dropped on the way |
| LazyDisplay.AncestryIsAcyclic | server/db/generated/walls.sql.go:64-74 | In every state that satisfies the invariant no photo is its own ancestor |
| RouteDisplay.SavedHoldsAreValid | server/internal/route/hold_roles.go:14-52 | Over every run each route’s saved holds passed role validation |
| RouteKeeping.SavedRoutesShowThemselves | server/internal/route/handler.go:82-206 | In any run a route just saved shows exactly the saved holds and roles on the photo it was saved on |
| RouteKeeping.RoutesLeaveOnlyOnRequest | server/internal/route/handler.go:316-512 | In any run a route stays until it or its wall is deleted, and what was saved with it stays until it is saved anew |
| DisplayLimits.RewrittenRoutesKeepDeletedHolds | server/internal/wall/handler.go:612-651 | A concrete run with a timely deletion after which two routes that showed the same hold part ways: the archived one drops it, the rewritten one keeps the dead id |
| DisplayLimits.LateDeletionsDropLiveHolds | server/internal/wall/handler.go:612-651 | A concrete run with a late deletion that takes a hold still on the wall out of an archived route |
| WallSafety.EveryRunIsSafe | server/internal/wall/handler.go:396-477 | In every reachable state of every interleaving the wall invariant holds, snapshots stay meaningful, and every object a photo row or unfinished upload needs is stored and is neither queued nor about to be deleted |
| WallSafety.StepKeepsObjects | server/internal/wall/handler.go:679-783 | Upload, supersede, discard, wall deletion and storage clean-up never doom or delete an object some photo row still needs |
| StorageRuns.NothingLeaks | server/internal/wall/handler.go:396-477 | The other half: after every run a stored object belongs to a photo row or to an upload under way, or is queued or about to be deleted, or its upload was given up without its clean-up |
| WallSafety.StepKeepsSnapshots | worker/main.py:264-276 | What a request or worker read before its transaction stays usable: a read photo never becomes pending, loaded holds stay holds of the parent |
| WallSafety.StepMoves | server/internal/wall/reset.go:529-689 | Every event keeps the wall invariant and only ever adds fresh ids, never moving a photo or a hold |
| WallSafety.MatcherOutputIsWellIndexed | worker/detection/match.py:116-162 | Whatever candidates the geometry yields, matching hands the writer indices of detected and loaded holds, one to one |
| WallInvariant.OnePendingReset | server/db/generated/walls.sql.go:268-271 | A wall has at most one pending reset and its parent is the active photo |
| WallInvariant.MatchesAreAPartialInjection | server/internal/wall/reset.go:389-402 | The map of a reset photo is injective, from holds of its parent to its own holds |
| WallInvariant.RematchIsSound | server/internal/wall/reset.go:325-402 | A rematch keeps the invariant, touches no other map, and can never end in a conflict |
| WallInvariant.UpsertNeverConflicts | server/internal/wall/reset.go:389-402 | Deleting both uses and inserting succeeds exactly for a hold of the reset photo, and the map becomes the old one without the pair’s former partners plus the pair |
| WallInvariant.HolderIsTheChild | server/internal/wall/reset.go:389-402 | A match row of a parent’s hold always belongs to the one reset of that parent, which is why the upsert’s deletes suffice |
| WallInvariant.InsertMatchExtendsOneMap | server/internal/wall/reset.go:389-402 | An accepted insert adds one pair to one photo’s map and leaves all others |
| WallInvariant.RestoreIsSound | server/internal/wall/reset.go:446-527 | A restore that passes its checks always succeeds, keeps the invariant and matches the old hold to the restored one |
| WallInvariant.WithoutHoldsIsSound | server/internal/wall/reset.go:404-444 | Deleting holds takes their match rows along and keeps the invariant |
| WallInvariant.DiscardIsSound | server/internal/wall/reset.go:691-713 | Discarding a pending reset keeps the invariant: nothing else hangs on it |
| WallInvariant.UploadIsSound | server/internal/wall/handler.go:396-477 | Both kinds of upload keep the invariant, superseded resets included |
| WallInvariant.UploadKeepsAncestry | server/internal/wall/handler.go:396-477 | An upload leaves place, parents and maps of all other non-pending photos alone |
| WallInvariant.DeleteWallIsSound | server/internal/wall/handler.go:745-788 | Deleting a wall leaves a sound state |
| WallInvariant.Applicable | server/internal/wall/reset.go:541-611 | An accepted apply found a pending photo with a finished job whose parent is the active photo |
| WallInvariant.ApplyIsSound | server/internal/wall/reset.go:529-689 | Applying a reset keeps the invariant: one active photo, valid roles, the map now fixed history |
| WallInvariant.InsertMatchesSucceeds | worker/main.py:325-345 | The worker’s match inserts all succeed unless a matched old hold was deleted since it was loaded, and then the batch fails |
| WallInvariant.PartialWrite | worker/main.py:279-358 | A partial reset’s result transaction commits exactly if no matched old hold is gone, and adds exactly the worker’s rows |
| WallInvariant.WriteIsSound | worker/main.py:279-358 | Exactly when results land, for full and partial photos, and that they keep the invariant |
| WallLaws.ResultsLand | worker/main.py:279-358 | Results that land finish the job and store exactly the detected boxes as holds; for a reset they also store the alignment and map exactly the matched pairs; nothing else changes |
| WallLaws.ReviewsExactlyWhen | server/internal/wall/reset.go:325-385 | A match may be set or cleared exactly on a reset under review, for a hold of the replaced photo and, when setting, a hold of the new one |
| WallLaws.ClearingRemovesOneRow | server/internal/wall/reset.go:367-369 | Clearing a match takes the row of that old hold out of the map, and no other row of any table changes |
| WallLaws.SettingAddsOneRow | server/internal/wall/reset.go:370-402 | Setting a match gives the old hold the new one and takes it from any other old hold; nothing else changes |
| WallLaws.ClearedMatchesComeBack | server/internal/wall/reset.go:325-402 | Setting a cleared match again restores all tables |
| WallLaws.ClearedHoldsKeepTheirRoutes | server/internal/wall/reset.go:325-385 | A route that uses a hold whose match was cleared is left as it is when the reset is applied |
| WallLaws.DeletesResetHoldExactlyWhen | server/internal/wall/reset.go:404-444 | Exactly when a hold of a reset is deleted, and which refusal is reported otherwise |
| WallLaws.DeletingAHold | server/internal/wall/reset.go:404-444 | A deleted hold takes along exactly the pairs that use it, in the map of every photo |
| WallLaws.RestoresExactlyWhen | server/internal/wall/reset.go:446-527 | An old hold can be restored exactly on a reset under review whose alignment carries its box over; the restore then adds one hold and one pair |
| WallLaws.UploadsExactlyWhen | server/internal/wall/handler.go:396-477 | Exactly when an upload is accepted; it takes the pending reset away, adds the new photo with a waiting job, and leaves every other photo with its holds, matches, job and routes |
| WallLaws.DiscardsExactlyWhen | server/internal/wall/reset.go:691-713 | A reset is discarded exactly while under review, with all that hangs on it and nothing else |
| WallLaws.DiscardUndoesAnUpload | server/internal/wall/reset.go:691-713 | Discarding a partial upload at once restores every table |
| WallLaws.OtherPhotosStay | server/db/generated/walls.sql.go:64-74 | Deleting photos no remaining one descends from leaves every other photo whole |
| WallLaws.DeletesWallExactlyWhen | server/internal/wall/handler.go:745-788 | A wall goes with its photos, holds and routes, exactly the keys of its photos join the queue, and every other wall stays whole |
| WallLaws.AppliesExactlyWhen | server/internal/wall/reset.go:541-611 | In every sound state a reset can be applied if and only if it is under review on its wall and its detection is done |
| WallLaws.ApplyingMovesExactly | server/internal/wall/reset.go:612-679 | Applying makes its photo the active one and moves exactly the routes of the replaced photo all of whose holds are matched, holds and roles carried over whole |
| WallStore.Store.LockPendingReset | server/internal/wall/reset.go:308-323 | Returns the parent of a pending reset of this wall, nothing otherwise |
| WallStore.Store.UpsertMatch | server/internal/wall/reset.go:389-402 | The statements leave the tables of the transaction function, or change nothing and report why |
| WallStore.Store.UpdateResetMatch | server/internal/wall/reset.go:325-385 | The handler commits exactly the rematch or unmatch, and a refusal leaves every table as it was |
| WallStore.Store.DeleteResetHold | server/internal/wall/reset.go:404-444 | Removes one hold of the reset photo with its match row, or changes nothing |
| WallStore.Store.ProjectOldHold | server/internal/wall/reset.go:446-493 | Which refusal is reported, or the smallest box around the old corners carried through the inverse alignment |
| WallStore.Store.RestoreResetHold | server/internal/wall/reset.go:446-527 | A new hold at that box matched to the old one, or nothing at all |
| WallStore.Store.CheckApply | server/internal/wall/reset.go:541-611 | The checks under the wall lock in their order, and which error each reports |
| WallStore.Store.MoveRoutes | server/internal/wall/reset.go:612-679 | Row by row exactly the completely matched routes of the parent move; undecodable roles abort; kept and archived counts add up to the parent’s routes |
| WallStore.Store.ApplyReset | server/internal/wall/reset.go:529-689 | Commits the specified state with the reported counts, or rolls back with the specified error |
| WallStore.Store.CommitUpload | server/internal/wall/handler.go:396-477 | The upload transaction and the keys of the pending photos it superseded |
| WallStore.Store.DiscardReset | server/internal/wall/reset.go:691-713 | Deletes exactly a pending reset of this wall and returns its object key |
| WallStore.Store.DeleteWall | server/internal/wall/handler.go:745-788 | Queues every object of the wall and deletes the wall with all that hangs on it |
| WallStore.Store.InsertHolds | worker/main.py:308-323 | The detected holds get consecutive fresh ids and nothing else changes |
| WallStore.Store.WriteResults | worker/main.py:279-358 | The result transaction as a whole; a refused row restores every table |
| ResetPreview.GetReset | server/internal/wall/reset.go:149-304 | The review screen: each new hold with its old partner, unmatched old holds drawn through the inverse alignment if that projects, affected routes with their missing holds, and the kept count |
| ResetPreview.PreviewIsWhatApplyKeeps | server/internal/wall/reset.go:273-291 | On one state the previewed kept routes are those applying keeps, and roles can never make applying fail |
| ResetPreview.MissingAndKept | server/internal/wall/reset.go:273-291 | Missing and kept ids partition a route’s holds; none missing exactly when all are matched |
| ResetPreview.NewHolds | server/internal/wall/reset.go:199-226 | Each hold of the reset photo with the one old hold whose match it is, or none |
| ResetPreview.RemovedHolds | server/internal/wall/reset.go:227-258 | Exactly the unmatched holds of the parent, placed through the inverse alignment or in place |
| ResetPreview.AffectedRoutes | server/internal/wall/reset.go:266-297 | Every route of the parent is either counted as kept or listed with the holds it misses |
| HoldRemap.RemapPartialHolds | server/internal/route/legacy_remap.go:177-203 | The lossy remap succeeds exactly if the roles decode, and then ids and each role list are their matched entries, translated, in order |
| HoldRemap.TranslationCarriesOver | server/internal/route/legacy_remap.go:177-203 | Said of the result alone: the translated list is what the matches make of exactly the matched ids, in their old order, and so is each role list under the same names; decodable roles always translate |
| HoldRemap.TranslatedHolds | server/internal/route/legacy_remap.go:177-203 | A translated list has a hold, or has it in a role, if and only if it had, or had in that role, a hold matched to it |
| HoldRemap.KeepMatched | server/internal/route/legacy_remap.go:178-183 | The loop keeps exactly the matched ids, translated, in order |
| HoldRemap.KeptWhole | server/internal/route/legacy_remap.go:177-203 | Nothing is dropped exactly when every id is matched, and then position by position |
| HoldRemap.KeptComposes | server/internal/route/legacy_remap.go:50-77 | Two lossy steps are one step through the composed map |
| HoldRemap.TranslationsCompose | server/internal/route/legacy_remap.go:50-77 | The same for a whole route with its roles |
| HoldRemap.RemapRouteHolds | server/internal/wall/reset_mapper.go:11-42 | The all-or-nothing remap: complete exactly if every hold and role entry is matched, then equal to the lossy one; a missing hold is reported before undecodable roles |
| HoldRemap.RewriteRole | server/internal/wall/reset_mapper.go:27-38 | In-place rewriting of one role list stops at the first unmatched id and otherwise equals the lossy list |
| HoldRemap.RewriteIsDetermined | server/internal/wall/reset_mapper.go:11-42 | That contract fixes the result completely |
| HoldRoles.ValidateHoldRoles | server/internal/route/hold_roles.go:14-52 | Accepts exactly the valid roles: known names, lists of distinct holds of the route, at most one role a hold, whatever order the names are visited in |
| HoldRoles.CheckRole | server/internal/route/hold_roles.go:32-49 | One role list is accepted exactly if it fits the route and meets no hold assigned before |
| HoldRoles.TranslationKeepsRolesValid | server/internal/route/hold_roles.go:14-52 | Roles valid when saved stay valid through any injective map, however many holds are dropped |
| HoldRoles.MergingHoldsBreaksRoles | server/internal/route/hold_roles.go:14-52 | Without injectivity that fails: merging two holds can give one hold two roles |
| HoldRoles.CompleteHoldsMeanCompleteRoles | server/internal/wall/reset_mapper.go:11-42 | For a validly saved route matched hold ids already mean matched roles |
| ImageChain.RemapToActive | server/internal/route/legacy_remap.go:19-78 | For any table, cycles and missing parents included, the walk returns the holds carried down the path from the route’s photo, or nothing if that is no ancestor |
| ImageChain.RemapRoutesToActive | server/internal/route/legacy_remap.go:87-167 | The batch gives every route what the single walk gives it alone, returns nothing exactly if all are on the active photo, and fails only if some route fails alone |
| ImageChain.WalkAncestry | server/internal/route/legacy_remap.go:102-121 | The shared walk returns a repeat-free ancestry that either ends or has met every photo asked for |
| ImageChain.DescendOne | server/internal/route/legacy_remap.go:156-164 | One route is carried down the shared path exactly as the single walk does it |
| ImageChain.PathDecidesReach | server/internal/route/legacy_remap.go:27-48 | Once a walk has ended, exactly the photos on its path are ancestors |
| ImageChain.NothingBeyondPath | server/internal/route/legacy_remap.go:27-48 | A walk that cannot leave its path has seen every ancestor, even on a cycle |
| Homography.InverseIsTwoSided | server/internal/wall/reset.go:87-99 | The computed inverse is a two-sided inverse |
| Homography.AdjugateOnTheRight | server/internal/wall/reset.go:92-98 | Matrix times adjugate is the determinant on the diagonal |
| Homography.AdjugateOnTheLeft | server/internal/wall/reset.go:92-98 | And the other way round |
| Homography.ProjectThereAndBack | server/internal/wall/reset.go:76-99 | Projecting and projecting back returns the point; the way back succeeds exactly when the first denominator is at most 1e12 |
| Homography.ProjectBackAndThere | server/internal/wall/reset.go:76-99 | The same starting through the inverse |
| HoldOutline.ProjectBBox | server/internal/wall/reset.go:101-125 | Succeeds exactly if the four corners project, and returns the smallest box around their images |
| HoldOutline.ProjectedBoxCoversTheBox | server/internal/wall/reset.go:101-125 | If the corner denominators share a sign every point of the box projects into the projected box |
| HoldOutline.ProjectedBoxCoversExactlyWhen | server/internal/wall/reset.go:101-125 | For an invertible map the projected box covers the box if and only if the corner denominators share a sign |
| HoldOutline.ProjectPolygon | server/internal/wall/reset.go:127-147 | All vertices are projected in place keeping extra coordinates, or the polygon is returned as it was |
| JobQueue.ResultsAreWrittenOnce | worker/main.py:279-358 | In every interleaving of any number of workers, crashes and clock advances each job’s results commit at most once, by a worker that had claimed it |
| JobQueue.CommitsWereOwned | worker/main.py:279-358 | In any run each commit was written by the current owner of its job, on a lease outliving the transaction, with the photo still there |
| JobQueue.LostWorkersStayOut | worker/main.py:174-189 | A worker whose lease was once lost never again changes any job, whatever it tries and however long the run |
| JobQueue.LostForGood | worker/main.py:85-171 | Ownership once lost never comes back to the same claim, over any run |
| JobQueue.OneOwner | worker/main.py:85-171 | Two claims on one job that both own it are the same claim |
| JobQueue.AttemptsStayBounded | worker/main.py:85-171 | Attempts never exceed the limit, and a token is set exactly while a claimed job is processing |
| JobQueue.TerminalIsAbsorbing | worker/main.py:408-456 | Done and failed jobs never change; they only go with their photo |
| JobQueue.RunsAreGood | worker/main.py:79-189 | The queue invariant over every run |
| JobQueue.WorkOnlyRunsOut | worker/main.py:79-171 | Every step leaves a job’s work as it is or uses up a bounded measure of it |
| JobQueue.ChangesAreBounded | worker/main.py:79-171 | However many workers fight over it, a job changes a bounded number of times before it is finished |
| JobQueue.UnfinishedJobsBecomeReady | worker/main.py:85-171 | A job that is not finished is claimable, or failable if out of attempts, once its backoff or lease has passed |
| JobQueue.ClaimMakesProgress | worker/main.py:85-171 | A claim fails exhausted jobs and moves on the first ready one in claim order, so no ready job waits behind others that never change |
| JobProgress.ClaimTakesTheJob | worker/main.py:85-171 | The picked job, with its photo there, is leased: one more attempt, a token no claim has had, an expiry one lease after the lease statement, and a claim that owns it; it is failed only if its photo is missing; of the others only exhausted ones change |
| JobProgress.UnfinishedJobsCanFinish | worker/main.py:79-456 | From every good state each unfinished job with attempts left and its photo there has a run that ends in its one commit |
| JobProgress.DueJobsCanFinish | worker/main.py:85-171 | For a job already due, workers that only claim and write get there, those before it in the claim order first |
| JobProgress.NewJobsCanFinish | worker/main.py:85-171 | So has a job just enqueued |
| JobProgress.FailedAttemptsCanFinish | worker/main.py:408-440 | And one whose attempt failed below the limit |
| JobProgress.FailureIsRecorded | worker/main.py:408-440 | Below the limit a failed attempt puts the job back to pending with its backoff, without token or lease; the last attempt fails it; no other job changes |
| JobProgress.FailedAttemptsBackOff | worker/main.py:408-440 | After a recorded failure no run touches the job before its backoff is over, and from then on it is eligible |
| JobProgress.DiscardIsRecorded | worker/main.py:443-456 | A discarded job is failed, and no other job changes |
| JobProgress.BackoffDoubles | worker/main.py:79-82 | Each wait is exactly twice the one before until the cap |
| JobProgress.HeartbeatIsTheLongestSafe | worker/main.py:29-32 | No interval that fits three times in the lease and was not asked to be shorter is longer than the one used |
| JobQueue.PickIsUnique | worker/main.py:108-125 | The claim order leaves no ties: the picked job is determined |
| JobQueue.BackoffIsCappedAndMonotone | worker/main.py:79-82 | Waits start at the base, never shrink, at most double and stay within the cap |
| JobQueue.ClampHeartbeat | worker/main.py:29-32 | The heartbeat interval is at least a second |
| JobQueue.HeartbeatFitsTheLease | worker/main.py:29-32 | Three heartbeats fit in a lease, and a safe request is left alone |
| JobQueue.LeaseHoldsThrough | worker/main.py:174-189 | While a lease runs, no run of other workers takes the job |
| JobQueue.HeartbeatKeepsTheLease | worker/main.py:211-225 | A renewal less than two thirds of a lease late still finds the lease and makes it fresh, whatever others do |
| JobQueue.LatenessMargin | worker/main.py:211-225 | The exact lateness a lone lease survives |
| JobQueue.JobTable.SelectJob | worker/main.py:108-125 | Picks the first eligible unlocked row in claim order |
| JobQueue.JobTable.ClaimJob | worker/main.py:85-171 | The claim transaction: exhausted jobs fail, and a claim is handed out exactly if the picked job has its photo, an orphan being failed |
| JobQueue.JobTable.RenewLease | worker/main.py:174-189 | Renews exactly for the live owner |
| JobQueue.JobTable.FinishJob | worker/main.py:279-358 | Fenced before the rows are written and again when the job is marked done |
| JobQueue.JobTable.FailAttempt | worker/main.py:408-440 | Records a failure exactly for the live owner: back to pending with a wait, or failed |
| JobQueue.JobTable.DiscardJob | worker/main.py:443-456 | Fails the job exactly for the live owner |
| GreedyMatch.AssignmentIsStable | worker/detection/match.py:48-60 | One to one, clear of used indices, and every rejected candidate is blocked by a used index or a chosen candidate sorting no later |
| GreedyMatch.AssignmentIsHalfOptimal | worker/detection/match.py:48-60 | The total overlap is at least half that of any one-to-one choice among the candidates |
| GreedyMatch.HalfIsTight | worker/detection/match.py:48-60 | The factor cannot be improved: two pairs of overlap 1 lose to one of 1 + e |
| GreedyMatch.AssignmentIgnoresOrder | worker/detection/match.py:48-60 | The order in which candidates are listed is irrelevant |
| GreedyMatch.ScanIsTheStableSet | worker/detection/match.py:48-60 | The kept set is the only one-to-one set in which every omission is blocked |
| GreedyMatch.ScanIsHalfOptimal | worker/detection/match.py:48-60 | Half-optimality of the scan with indices already used |
| GreedyMatch.GreedyAssign | worker/detection/match.py:48-60 | The loop over the shared used sets returns that assignment and adds exactly its indices to them |
| GreedyMatch.AddedIsOneToOne | worker/detection/match.py:147-162 | A correction round never reuses a matched index |
| GreedyMatch.RoundsGrowAndSettle | worker/detection/match.py:147-162 | Rounds only append, stay one to one, and stop early only when a round proposes nothing |
| GreedyMatch.AllMatchesAreOneToOne | worker/detection/match.py:116-162 | Whatever the corrections propose no hold is matched twice, and first-pass matches are never revised |
| GreedyMatch.AllMatchesInRange | worker/detection/match.py:116-162 | All returned indices address given holds |
| GreedyMatch.MatchingIsComplete | worker/detection/match.py:116-162 | A singular alignment matches nothing; otherwise every candidate shares a hold with a returned match that overlaps no less, under three first matches are returned as they are, and from three on the corrections have no more to add or have added in all five rounds |
| GreedyMatch.MatchingIsHalfOptimal | worker/detection/match.py:116-162 | For a regular alignment what is returned overlaps at least half as much as any one-to-one choice of the candidates |
| GreedyMatch.NothingIsMadeUp | worker/detection/match.py:116-162 | Each returned match is that of a candidate, or of a pair the corrections proposed for the matches before it |
| GreedyMatch.CorrectMatches | worker/detection/match.py:147-162 | The round loop computes the rounds function, early stop included |
| GreedyMatch.MatchHolds | worker/detection/match.py:116-162 | First pass, singular-alignment cut-off and rounds together |
| Sessions.RevocationIsFinal | server/internal/user/handler.go:200-252 | In every interleaving nothing is refreshed, authenticated, linked, unlinked or changed on the strength of a stamp read before a version bump that came first |
| Sessions.TokensAreSpentOnce | server/db/generated/users.sql.go:39-56 | Each refresh token is spent by at most one committed refresh and is never stored again |
| Sessions.PairsWorkUntilTheNextBump | server/internal/user/handler.go:346-396 | A pair is current exactly until its account’s next bump, and as long as it is stored its refresh half buys a new one exactly until then |
| AccountHistory.SignInExactlyWhen | server/internal/oidc/handler.go:405-496 | A sign-on succeeds if and only if its identity is still its reader’s account’s under the lock, which changes no account and no identity, or its email is verified and not empty and the identity free to claim; an identity that moved meanwhile is refused |
| AccountHistory.ClaimedByEmail | server/internal/oidc/handler.go:431-496 | A sign-on by email leaves its account without a password, with that identity alone and one session, and every other account as it was |
| AccountHistory.OnlyOwnersChangeAccounts | server/internal/oidc/handler.go:405-496 | No event changes the row or the identities of an account but one on a request or link flow of its own, or a verified sign-on with its email |
| AccountHistory.IdentitiesAreEarned | server/internal/oidc/handler.go:364-549 | After any run every identity was attached to its account by a link flow of that account or by a verified sign-on with its email |
| AccountHistory.EmailsAreUnique | server/internal/user/handler.go:103-150 | Over every run no two accounts share an email |
| AccountHistory.PasswordChangesExactlyWhen | server/internal/user/profile.go:63-149 | A change commits exactly for a request that knew the current password while the account is as it saw it; the account then has the new password, and only its sessions go |
| AccountHistory.PasswordsAreTheLastSet | server/internal/user/profile.go:63-149 | After any run an account has the password last set for it, by registration or a committed change, or none since a takeover |
| AccountHistory.OnlyTheLastPasswordLogsIn | server/internal/user/handler.go:152-188 | After any run a password logs in if and only if it is the one last set |
| AccountHistory.ChangedPasswordLogsIn | server/internal/user/profile.go:63-149 | After a committed change exactly the new password logs in, until a later change or takeover bumps the account |
| AccountHistory.LinkedIdentitySignsIn | server/internal/oidc/handler.go:499-549 | A link succeeds exactly for the version its flow began with and an identity nobody else has, and then that identity signs in to that account |
| AccountHistory.UnlinkedIdentityIsOut | server/internal/user/profile.go:228-290 | An unlinked identity no longer signs in by itself |
| AccountHistory.SessionsBegin | server/internal/user/handler.go:103-188 | Exactly when an account registers, what a login issues, and that a pair authenticates exactly until its account’s next bump |
| AccountHistory.GoneForGood | server/internal/user/handler.go:190-274 | A refresh token that was spent, logged out, revoked or expired is unknown for the rest of any run |
| Sessions.RunsAreGood | server/internal/oidc/handler.go:405-549 | The session invariant over every run: versions date stamps against bumps, spent tokens stay away |
| Sessions.TakeoverTables | server/internal/oidc/handler.go:449-472 | A takeover leaves no password, only the new identity, one new token of the new version, and other accounts untouched |
| Sessions.TakeoverKeeps | server/internal/oidc/handler.go:405-496 | A takeover that re-reads under the lock bumps the version and keeps the invariant |
| Sessions.UnlinkGuardsTheLastWayIn | server/internal/user/profile.go:228-290 | Unlinking is refused exactly when it would leave the account without a way to sign in |
| Sessions.NobodyIsEverLockedOut | server/internal/user/profile.go:209-290 | Over every run every account keeps a way to sign in |
| AccountStore.Store.BumpTokenVersion | server/db/generated/users.sql.go:14-36 | Adds one to one account’s version |
| AccountStore.Store.Refresh | server/internal/user/handler.go:190-252 | The token is spent in any case; only the current version buys a pair; an unknown token changes nothing |
| AccountStore.Store.ChangePassword | server/internal/user/profile.go:63-149 | Commits only on the version and password the request saw: new password, no old token, version up, one new token |
| AccountStore.Store.UsableIdentities | server/internal/user/profile.go:217-225 | The loop counts the identities that can still sign in |
| AccountStore.Store.UnlinkIdentity | server/internal/user/profile.go:228-290 | Deletes, counts what is left, and rolls back if that is no way in |
| AccountStore.Store.LinkIdentity | server/internal/oidc/handler.go:499-549 | Links only for the version the flow began with and an identity nobody else has |
| AccountStore.Store.ResolveByEmail | server/internal/oidc/handler.go:431-496 | Takeover or new account by verified email, with the identity attached, or nothing at all |
| AccountStore.Store.SignIn | server/internal/oidc/handler.go:364-496 | The whole sign-on with its second read under the lock |
| TabRuns.OneRequestForAllTabs | web/src/lib/api/refreshPolicy.ts:30-94 | If no tab inside the lock ever goes a full lease without renewing, any number of tabs refused with one access token make at most one refresh request, and a finished tab has succeeded |
| TabRuns.FrozenTabCausesASecondRequest | web/src/lib/api/refreshLock.ts:39-97 | The lease is the sharp bound: a second tab sends a second request if and only if the first froze inside for a lease or more |
| TabRuns.TimelyRunsNeverLapse | web/src/lib/api/refreshLock.ts:39-97 | In such timely runs no lease lapses |
| TabRuns.EveryRunCanFinish | web/src/lib/api/refreshPolicy.ts:30-94 | However far a timely run has come it extends to one in which every tab has succeeded, on one request in all |
| TabRuns.MovesAreBounded | web/src/lib/api/refreshPolicy.ts:30-94 | In any run at most six moves a tab are made |
| TabRefresh.OneRequestWithoutLapses | web/src/lib/api/refreshPolicy.ts:30-94 | The same bound for every run in which no lease happened to lapse, timely or not |
| TabRefresh.RunsStayOnCourse | web/src/lib/api/refreshPolicy.ts:30-94 | The stages every such run goes through |
| TabRefresh.SomeTabCanMove | web/src/lib/api/refreshPolicy.ts:30-94 | As long as a tab is not done some tab can move without a lapse |
| TabRefresh.TwoInsideMeansALapse | web/src/lib/api/refreshLock.ts:39-97 | Two tabs are inside the lock together only if one let its lease lapse |
| TabRefresh.RunsExclude | web/src/lib/api/refreshLock.ts:39-97 | Everyone inside owns the record or lost it |
| TabRefresh.OnlyDeadSessionsAreCleared | web/src/lib/api/refreshPolicy.ts:51-94 | With or without the lock, a refresh clears the stored session exactly if the server turned down that very session, whose token it then no longer takes |
| TabRefresh.TurnInside | web/src/lib/api/refreshPolicy.ts:30-94 | What a tab does once inside: it sends exactly for the session whose access token was refused, is done without a request if another is stored, and gives up if none is |
| TabRefresh.SpentForALiveOne | web/src/lib/api/refreshPolicy.ts:51-94 | A request with a token the server takes ends in a stored session it takes, and the spent token is no longer taken |
| TabRefresh.RetryDelaysDouble | web/src/lib/api/refreshPolicy.ts:106-112 | A server wish is honoured within its bounds; without one the wait starts at a second and doubles until the cap |
| TabRefresh.RetryDelaysAreBoundedAndGrow | web/src/lib/api/refreshPolicy.ts:106-112 | Retry delays are bounded and, without a server wish, never shrink |
| TabRefresh.LockRecord.Acquire | web/src/lib/api/refreshLock.ts:39-54 | Takes the record exactly if it is absent or expired |
| TabRefresh.LockRecord.Renew | web/src/lib/api/refreshLock.ts:56-68 | Extends only one’s own record |
| TabRefresh.LockRecord.Release | web/src/lib/api/refreshLock.ts:70-80 | Deletes only one’s own record |
| TabRefresh.SingleFlight.Call | web/src/lib/api/refreshPolicy.ts:114-124 | Calls made while one is pending share it; otherwise a new one starts |
| TabRefresh.SingleFlight.Settle | web/src/lib/api/refreshPolicy.ts:114-124 | After it settles the next call starts anew |
| Circuits.CircuitTable.ReplaceRoutes | server/internal/route/circuits.go:418-502 | Succeeds exactly if every route is available, the total is at most a hundred and the shift meets no occupied position; then the rows are the merged order, otherwise untouched |
| Circuits.OwnerSeesWhatTheySent | server/internal/route/circuits.go:418-502 | After a replacement the owner sees the sent list, and each hidden route with k visible ones before it stands behind min(k, length) of it |
| Circuits.MergeOrder | server/internal/route/circuits.go:477-487 | The two-index loop returns the merge |
| Circuits.MergeIsUnique | server/internal/route/circuits.go:477-487 | There is only one such order |
| Circuits.OrderIsDetermined | server/internal/route/circuits.go:418-502 | Visible ids and hidden counts determine a full order |
| Circuits.ReplacingWithTheSameKeepsTheOrder | server/internal/route/circuits.go:418-502 | Replacing with the visible list reproduces the full order |
| Circuits.ReplacingTwice | server/internal/route/circuits.go:418-502 | Exactly when two replacements in a row come to the second alone |
| Circuits.ParseRouteIds | server/internal/route/circuits.go:262-277 | Accepts exactly at most a hundred well-formed distinct ids, in order |
| Circuits.CollectHidden | server/internal/route/circuits.go:418-440 | The hidden routes with the visible ones counted before each; none is lost if all requested are visible |
| Circuits.CircuitTable.ShiftPositions | server/db/generated/circuits.sql.go:268-281 | Succeeds exactly if no row moves onto one still to move, in the given row order, and then shifts all |
| Circuits.ShiftIsSafeExactlyWhen | server/db/generated/circuits.sql.go:268-281 | The shift goes through in every row order exactly if no two rows are the offset apart |
| Circuits.ShorteningByTwoCanBeRefused | server/internal/route/circuits.go:463-470 | On a gapless circuit that means: the new list has at most one route fewer than the visible one it replaces |
| Circuits.ShorteningThreeToOne | server/internal/route/circuits.go:463-470 | Concrete refusal: three visible routes shortened to one, rows met in position order |
| Circuits.CircuitTable.DeleteVisible | server/db/generated/circuits.sql.go:84-100 | Deletes exactly the visible rows |
| Circuits.CircuitTable.WritePositions | server/internal/route/circuits.go:488-502 | With the remaining rows parked above no statement is refused and the rows are numbered in order |
| Circuits.ReadyToWrite | server/internal/route/circuits.go:463-476 | Shift and delete leave exactly the hidden rows, all parked above the positions to come |
| Circuits.WrittenOrderIsListed | server/db/generated/circuits.sql.go:152-168 | The written positions run from 0 without gaps in the merged order |
| Circuits.CircuitTable.AppendRoute | server/db/generated/circuits.sql.go:14-36 | A present route stays, a new one goes last, a full circuit refuses |
| RateLimit.AcceptanceIsBounded | server/internal/middleware/ratelimit.go:33-87 | In any run, with any other keys and any clean-ups, a key gets at most limit acceptances a window and at most 2·limit−1 in any interval of one window length |
| RateLimit.TurnedAwayExactlyWhenFull | server/internal/middleware/ratelimit.go:46-87 | A request is turned away if and only if the window it falls in has already let limit requests through |
| RateLimit.AcceptedAsIfAlone | server/internal/middleware/ratelimit.go:33-87 | What a run lets through for a key is what it would have let through alone and without clean-ups |
| RateLimit.BoundIsReached | server/internal/middleware/ratelimit.go:46-87 | That interval bound is attained |
| RateLimit.CleanupIsInvisible | server/internal/middleware/ratelimit.go:33-44 | Runs with and without clean-ups end in states no later request can tell apart |
| RateLimit.DecisionsIgnoreCleanup | server/internal/middleware/ratelimit.go:33-44 | Every decision is as if nothing had been evicted |
| RateLimit.KeysAreIndependent | server/internal/middleware/ratelimit.go:46-87 | Each key is counted as if it were alone |
| RateLimit.VisitsAreCounted | server/internal/middleware/ratelimit.go:46-87 | The visitor record counts exactly the acceptances of its window |
| RateLimit.RateLimiter.Handle | server/internal/middleware/ratelimit.go:46-87 | One request: the decision and the updated entry |
| RateLimit.RateLimiter.Cleanup | server/internal/middleware/ratelimit.go:33-44 | Deletes exactly the entries last seen more than a window ago |
| Activity.FixedDataIsShownWhole | server/internal/route/activity.go:158-225 | On fixed data the pages together are the visible entries in falling order, each once |
| Activity.FixedDataEnds | server/internal/route/activity.go:158-225 | And the cursors run out after at most one page more than there are entries |
| Activity.PagesNeverRepeat | server/internal/route/activity.go:158-225 | Whatever is inserted or deleted between requests nothing is shown twice |
| Activity.SteadyEntriesAreShownOnce | server/internal/route/activity.go:158-225 | An entry that is there from the first request to the last is shown exactly once |
| Activity.PageCovers | server/internal/route/activity.go:219-224 | A page is a falling stretch past its cursor, complete down to where the next begins |
| Activity.QueryActivity | server/internal/route/activity.go:158-225 | Reading one row more than the page decides whether a next cursor is given |
| ActivityCursor.FeedThroughTexts | server/internal/route/activity.go:92-225 | Reading the feed through encoded and decoded cursors: nothing twice whatever happens between pages, steady entries exactly once, and on fixed data exactly the visible entries in finitely many pages |
| ActivityCursor.CursorsRoundTrip | server/internal/route/activity.go:117-156 | Decoding undoes encoding on every item key |
| ActivityCursor.DecodeUndoesEncode | server/internal/route/activity.go:149-156 | Unpadded URL-safe base64 decodes every byte string it encodes |
| ActivityCursor.SplitUndoesJoin | server/internal/route/activity.go:132-135 | Splitting at bars undoes joining fields without bars |
| ActivityCursor.JoinUndoesSplit | server/internal/route/activity.go:132-135 | And joining undoes splitting, into fields without bars |
| ActivityCursor.AcceptedExactlyWhen | server/internal/route/activity.go:117-147 | Exactly the texts of three bar-free fields that read as date, time and id are cursors, of that entry |
| ActivityCursor.DecodeCursor | server/internal/route/activity.go:117-147 | The decoder’s checks in order: an encoding, three fields, each field well formed |
| FlashLog.FlashesComeFirst | server/internal/route/logs.go:137-268 | From empty histories, after every sequence of creates, updates and deletes: a Flash comes before everything else in its history, nothing else there is one, and it took at most one attempt |
| FlashLog.RunsKeepTheRule | server/internal/route/logs.go:137-268 | From any tables that obey the rule every legal sequence of requests keeps it, and the unique index with it |
| FlashLog.CreatedExactlyWhen | server/internal/route/logs.go:152-268 | Exactly which new entries are saved: a Flash with one attempt before all others, anything else after any Flash, on a live route |
| FlashLog.UpdatedExactlyWhen | server/internal/route/logs.go:179-268 | Exactly which edits are saved, with the entry’s own log time and attempts |
| FlashLog.DeletedExactlyWhen | server/internal/route/logs.go:304-352 | Exactly own entries of the route can be deleted |
| FlashLog.SavedIsWhatWasSent | server/internal/route/logs.go:137-268 | What a saved request leaves: its own entry as sent, an edited one with its log time and attempts, every other entry as it was; a refused one leaves all |
| FlashLog.OthersCannotTouchAFlash | server/internal/route/logs.go:186-202 | No request of another user or on another entry changes, removes or overtakes a Flash |
| FlashLog.HeadOnlyIsTheRule | server/internal/route/logs.go:250-264 | The scan’s condition on the sorted history is the rule on the table |
| FlashLog.RuleImpliesIndex | server/db/migrations/0015_climb_logs_ratings.sql:10-10 | The rule implies the unique index of one Flash a user and route |
| FlashLog.ClimbLogs.CheckFlash | server/internal/route/logs.go:250-264 | The scan accepts exactly if the only Flash is the first entry with at most one attempt |
| FlashLog.ClimbLogs.ListHistory | server/internal/route/logs.go:227-249 | The sorted history of one user on one route, complete and without repeats |
| FlashLog.ClimbLogs.CreateLog | server/internal/route/logs.go:137-268 | The create transaction, rolled back whole on a conflict |
| FlashLog.ClimbLogs.UpdateLog | server/internal/route/logs.go:137-268 | The update transaction; missing and foreign entries and multi-attempt Flashes are refused first |
| FlashLog.ClimbLogs.DeleteLog | server/internal/route/logs.go:304-352 | Deletes exactly an own entry of this route |
| RouteFilters.WrittenFiltersAreReadBack | web/src/lib/routeFilters.ts:34-68 | Whatever else is in the address, readable filters are read back as they were written |
| RouteFilters.ReadableIsWhatAddressesShow | web/src/lib/routeFilters.ts:34-46 | The readable filters are exactly those some address shows |
| RouteFilters.ParsedIsReadable | web/src/lib/routeFilters.ts:22-46 | Reading yields known tags in order, clean holds, a grade range the right way round, one to five stars |
| RouteFilters.ReadingAnAddress | web/src/lib/routeFilters.ts:22-46 | What an address shows, said of its parameters: every known tag and every hold in it, the first readable value of each other name, and the upper grade bound only if not below the lower |
| RouteFilters.CanonicalSettles | web/src/pages/RouteList.tsx:110-115 | Rewriting the address a second time changes nothing |
| RouteFilters.CanonicalShowsTheSame | web/src/pages/RouteList.tsx:110-115 | Rewriting changes neither filters nor sort |
| RouteFilters.UnrelatedStay | web/src/lib/routeFilters.ts:48-68 | Unrelated parameters stay, in order, in front of the rewritten ones |
| RouteFilters.RewriteIsOthersThenPrinted | web/src/lib/routeFilters.ts:48-80 | Deleting and setting name by name is: everything else in place, then the printed groups |
| RouteFilters.RestoringShowsWhatWasSaved | web/src/pages/RouteList.tsx:96-108 | Restoring saved list state shows the saved filters and sort, except that old holdId parameters of the address join the holds |
| RouteFilters.SearchParams.WriteRouteFilters | web/src/lib/routeFilters.ts:49-68 | The sequence of deletes, appends and sets is the rewrite |
| RouteFilters.SearchParams.WriteRouteSort | web/src/lib/routeFilters.ts:76-80 | Replaces the sort, leaving the default out |
| RouteFilters.SearchParams.Canonicalise | web/src/pages/RouteList.tsx:110-115 | Filters then sort, both as read before |
| RouteFilters.SearchParams.MergeSaved | web/src/pages/RouteList.tsx:101-106 | Appends the saved values name by name |

## Left out

- HTTP decoding, status codes, JSON text, logging and routing: handlers return small outcome types, and roles are an optional map that may fail to decode.
- The geometry that scores candidates (polygons, hull areas, alignment estimation): overlap, distance and the corrections’ proposals are arbitrary given values.
- Polygons, confidences and hold sources in the wall state machine: a hold is its image and its box; `ProjectPolygon` is treated on its own.
- WallRuns: reading the active image together with its holds is one step, and the status column of jobs moves freely between the states a worker may set; tokens and leases of jobs are the subject of JobQueue.
- Storage retries: the delay before a queued deletion is tried again; each try is one event that may fail and leave the key queued.
- JobQueue: a connection that fails in the middle of a commit, where the worker cannot know whether it landed, and the polling loop around the transactions.
- Sessions: two registrations of one address in different case racing past the check that the address is free.
- Sessions: role synchronisation and demotion while tokens are issued, the 32-bit width of the version column, profile and picture updates, deletion of accounts, and the cryptography of tokens, passwords and state cookies.
- TabRefresh: two writes to the browser store racing within one turn, browsers with a native lock manager (which excludes without a lease), and lost responses in the one-request theorem.
- Circuits: routes changing visibility between the listing and the delete of one replacement, circuit names and styles, and the first filling of a new circuit.
- RateLimit: the choice of the client key, and clock readings taken before the lock; requests are ordered by the time they are decided with.
- Activity: the scan of columns that are only displayed; a request’s table is the set of entries visible to the viewer when it ran.
- ActivityCursor.CursorsRoundTrip: the written forms of dates, timestamps and ids enter as functions that read back and contain no bar, and the padded encodings tried after the unpadded one as one function; line breaks inside base64 text are not skipped.
- FlashLog: rejection of malformed dates and outcomes, ratings, the older log endpoints (which call the same transactions), and the read-back after a commit.
- RouteFilters: matching and sorting routes, storage failures while saving list state, and percent-encoding of the address; trimming, upper-casing and number text enter as functions.
- Floating-point rounding: coordinates and overlaps are reals; the 1e-12 guards stay.
- Wall statistics, route names, grade tables, tags and URLs of videos, and the pages themselves: finite or presentational.
