# A verified model of the Photoy engine

Photoy keeps every edit as parameters, replays them into pixels, and answers a framed
protocol through a memory-budgeted job queue. This Dafny project models that machinery
and proves what it promises over all inputs and all runs. Arithmetic is exact: integers
where the engine has integers (with their width written out where it matters), reals
where it has floating point.

`dafny verify dfyconfig.toml` checks everything.

## What is proved

**The job queue** (`JobQueue`, `QueueProtocol`, `QueueProgress`, `QueueBudget`, `QueueOrder`). The
class `Queue` has one method for each critical section. Around it, workers, submitters, the
condition variable, notifies still owed, spurious wakeups, cancellation and shutdown form a
step system, and every interleaving is a run. In every run each job is in exactly one place
and is answered exactly once; no wakeup is lost; a key has at most one job that is live and
uncancelled, the newest; the last worker leaves nothing behind; and the queue left to itself
stops after a bounded number of steps, with a job answered if and only if a worker was left when
it was handed in. A job cancelled before its start is answered as cancelled; a worker passes over a
job only when it does not fit. For every number of workers, the byte counter is right in every run
if and only if they cannot bring it to 2^64.

**Edit replay** (`Orientations`, `Turns`, `Geometries`, `Replay`, `Resizes`, `Layers`,
`LayerEffects`, `EditStacks`, `Serialization`, `SavedForms`). Folding a list of operations into one
rectangle and one orientation, and reading each pixel once, gives the picture that clockwise turns,
mirrors and cuts of the pixels make one at a time. The history is a past and a future; ids only grow; a checked
edit never leaves a point that cannot be rendered, with one exact exception. Operations survive
saving and reopening.

**Tone curves** (`ToneCurves`, `KeptPoints`, `Splines`, `SplineShapes`). Cleaning settles after two
passes. The limiter's overlapping passes leave every segment inside its circle, and a curve built
from any points never falls exactly when the points do not. Where the limiter has nothing to do the
curve draws evenly spaced points of a quadratic as that quadratic.

**The frame stream** (`Wire`, `Clients`, `Settling`, `Transport`). When the incremental parser with
its byte threshold does what a parser of the whole stream would is settled exactly, for one chunking
and for all of them; both ends of the pipe agree on every byte sequence; every request is settled at
most once, by the first frame that answers it or by what cuts it off.

**Render caches** (`RenderCaches`, `Previews`, `BasePictures`). In every interleaving of renders,
stores and restores, what is kept is what working it out again would give, as long as no buffer is
restored while a render carries a different one under its id; and that is the picture planned.

**Buffer algorithms** (`BoxFilters`, `GuidedFilters`, `GuidedLines`, `Backgrounds`, `BackgroundMeans`,
`Downscaling`, `ReducedPixels`, `Faces`, `FaceBoxes`, `JpegMarkers`, `Exif`, `ExifBlocks`). Running
sums are clamped-window averages; the guided filter's lines are the best there are; the fill reaches
exactly the cells within its number of steps; reduction boxes tile exactly when there are no more
boxes than pixels; suppression keeps a face for every one it drops; a split profile comes back in
any order, and an orientation out of any block it was written into.

`Operations`, `Grids`, `ByteStrings`, `Options`, `Integers` and `RealArithmetic` hold what several of these share.

## Where the code falls short of its promise

Each of these is proved with a concrete run or input, beside the exact condition under which
the promise does hold.

- The admitted-bytes counter is 64 bits and wraps. With `n` workers it is right in every run
  exactly when `n * estimate < 2^64` or `estimate + max(estimate, budget) < 2^64`
  (`QueueBudget.AccountingIff`). One worker is always safe (`QueueBudget.OneWorkerExact`); the
  engine starts one to four, and two are enough for a wrong count (`QueueBudget.TwoWorkersOverflow`).
- A job submitted after the last worker has left stays in the queue for ever
  (`QueueProgress.LateSubmitStranded` is such a run). A job is answered exactly when a worker was
  left at its submit (`QueueProgress.AnsweredIffWorkerLeft`). The queue's interface allows such a
  submit; the engine does not make one, since `main.cpp:42` and `main.cpp:47` dispatch and then shut
  down on one thread.
- An edit is checked as if it were appended, also when it replaces the entry on top. A crop that
  replaces a crop under a resize can pass the check and empty the document
  (`EditStacks.ReplacedCropEmpties`; `EditStacks.EditedGood` has the exact condition).
- `Sanitise` is described as putting a curve into its final form once. One pass is not always
  enough, two always are (`ToneCurves.OnePassIsNotEnough`, `ToneCurves.SettledIff`,
  `ToneCurves.CleaningSettles`).
- After a protocol error the client forgets its buffer but keeps listening, so bytes still to
  come are read as a new stream (`Clients.LateBytesAreAFreshStream`). They change nothing exactly
  when they are whole answers (`Clients.LateBytesIff`, `Clients.AbortAnyChunking`).
- A frame whose header is the JSON value null makes the data handler throw, and what stands behind
  it stays unread until more bytes come (`Clients.NullHidesTheNext`). For one run of the handler,
  for a given chunking and for all chunkings of a stream, `Clients.DigestIsScan`,
  `Clients.ChunkingIff` and `Clients.AnyChunking` say exactly when the client does what a parser
  of the whole stream would.
- Restoring a mask or a patch under an id that is in use, while a render carries the old
  buffer, leaves a stale copy behind (`RenderCaches.RebindingGoesStale`). It is harmless exactly
  when no render carries a buffer for the id that would fit differently (`RenderCaches.RestoreIff`).
  The one caller restores into a document whose id it has not returned yet (`engine.cpp:598-601`),
  which is always careful enough (`RenderCaches.OpeningIsCareful`).
- A directory offset of 2^32 - 2 or 2^32 - 1 passes the guard of the EXIF reader, because two is
  added to it in 32 bits; unless the block is that long the read is not inside it
  (`Exif.GuardPassesWrongly`, `Exif.ReadsInsideIff`).
- A profile larger than 255 pieces is dropped without a word (`JpegMarkers.FileBack`).

## Model

| member | source | states |
|---|---|---|
| JobQueue.Queue.CancelKeyLocked | apps/native/src/jobs/job_queue.cpp:72-79 | exactly the jobs registered under a non-empty key are cancelled; no cancellation is undone |
| JobQueue.Queue.Submit | apps/native/src/jobs/job_queue.cpp:81-102 | the whole new state: older jobs of the key cancelled, the new one registered and last in line; born cancelled while stopping |
| JobQueue.Queue.Cancel | apps/native/src/jobs/job_queue.cpp:104-110 | raises the flag of a registered job and nothing else; reports whether there was one |
| JobQueue.Queue.TakeRunnableLocked | apps/native/src/jobs/job_queue.cpp:119-144 | takes the first job that may start, if any may, charging it unless it is cancelled; otherwise changes nothing |
| JobQueue.Queue.FinishLocked | apps/native/src/jobs/job_queue.cpp:162-170 | gives back what was charged and takes the job off the register |
| JobQueue.Queue.ShutdownLocked | apps/native/src/jobs/job_queue.cpp:176-184 | cancels every registered job, once |
| QueueProtocol.InvStep | apps/native/src/jobs/job_queue.cpp:81-191 | the invariant (conservation, answers, counters, register, newest per key, draining, wakeups) survives every step of every interleaving |
| QueueProtocol.EveryJobOnce | apps/native/src/engine/engine.cpp:301-355 | in every run a job is in exactly one of pending, running and finished, is answered once when its task has run and never before |
| QueueProtocol.OneJobPerKey | apps/native/src/jobs/job_queue.cpp:72-102 | in every run an unfinished uncancelled job is the last submitted under its key, and any other of the key is cancelled |
| QueueProtocol.SubmitCancelsOwnKey | apps/native/src/jobs/job_queue.cpp:91-99 | a submit cancels a job if and only if it is unfinished and has the same non-empty key |
| QueueProtocol.CancelFindsUnfinished | apps/native/src/jobs/job_queue.cpp:104-110 | before shutdown a cancel finds a job exactly when it has not finished |
| QueueOrder.CancelRaises | apps/native/src/jobs/job_queue.cpp:104-110 | a cancel raises the flag of the unfinished job with that id, of no other, and changes nothing else |
| QueueOrder.CancelledBeforeStart | apps/native/src/engine/engine.cpp:301-309 | a job whose flag is up before a worker begins it, for whatever reason, has only the answer that it was cancelled, in every run from there |
| QueueOrder.CancelMeansCancelled | apps/native/src/engine/engine.cpp:301-309 | so has, in every run from the start, a job cancelled by its id before a worker began it |
| QueueOrder.LookFindsTheRightJob | apps/native/src/jobs/job_queue.cpp:119-156 | a worker that looks leaves only a stopping queue with nothing waiting; sleeps only when each waiting job is uncancelled and does not fit beside the running ones, of which there is one; and takes a job only past earlier ones of that kind, oversized only when nobody is busy and it is the first |
| QueueOrder.ReachedInOrder | apps/native/src/jobs/job_queue.cpp:81-156 | what that asks of a state holds after every run from the start in which the counter cannot wrap |
| QueueOrder.InOrderRun | apps/native/src/jobs/job_queue.cpp:81-144 | in every run waiting jobs stand in the order they were handed in |
| QueueOrder.MarksAreHighest | apps/native/src/jobs/job_queue.cpp:133-142 | over a run the two peaks are the most bytes admitted and the most jobs running at once |
| QueueProtocol.FlagsGrow | apps/native/src/jobs/job_queue.cpp:72-110 | no step takes a cancellation back |
| QueueProtocol.WakesStep | apps/native/src/jobs/job_queue.cpp:146-174 | no lost wakeup while a worker is left: pending work always has a worker awake or busy, or a notify owed to a sleeper; a stopping queue with sleepers has a notify to come |
| QueueProtocol.DrainedWhenGone | apps/native/src/jobs/job_queue.cpp:146-191 | when the last worker has left, every job handed in before that has been answered once; nothing runs, and only later jobs are pending |
| QueueProgress.SomeStepEnabled | apps/native/src/jobs/job_queue.cpp:146-174 | no deadlock: while anything is outstanding some thread can move |
| QueueProgress.InternalRunBounded | apps/native/src/jobs/job_queue.cpp:146-174 | the queue's own steps come to an end, within a bound given by its state |
| QueueProgress.QuietMeansDone | apps/native/src/jobs/job_queue.cpp:146-191 | when nothing can move, every job has been answered once, except those handed in after the last worker left, which have no answer; a stopping queue has no worker left |
| QueueProgress.CanFinish | apps/native/src/jobs/job_queue.cpp:146-174 | from every reachable state a run of the queue's own steps comes to rest with every job answered that was handed in while a worker was left |
| QueueProgress.AnsweredIffWorkerLeft | apps/native/src/jobs/job_queue.cpp:81-191 | in every run that comes to rest a job has been answered, once, if and only if some worker was left at its submit |
| QueueProgress.LateSubmitStranded | apps/native/src/jobs/job_queue.cpp:81-102 | a run from the start (shutdown, the worker leaves, a submit, all notifies) that rests with the job unanswered |
| QueueProgress.StrandedWithoutWorkers | apps/native/src/jobs/job_queue.cpp:81-102 | with no worker left, whatever is submitted or done, nothing pending is ever taken or answered |
| QueueBudget.ExactRun | apps/native/src/jobs/job_queue.cpp:119-170 | below that figure admitted bytes are the sum of the charged running estimates, within budget unless one oversized job is the only charged one; the guarded subtraction never skips |
| QueueBudget.AdmittedBound | apps/native/src/jobs/job_queue.cpp:119-144 | admitted bytes never pass the larger of the budget and the largest estimate |
| QueueBudget.OverflowRun | apps/native/src/jobs/job_queue.cpp:124-138 | when n workers can bring the counter to 2^64, a run with n workers that admits a job by wrapping round exists |
| QueueBudget.AccountingIff | apps/native/src/jobs/job_queue.cpp:119-174 | for every number of workers, budget and largest estimate: accounting is exact in every run if and only if the workers' jobs, or the budget and one more job, stay below 2^64 |
| QueueBudget.TwoWorkersOverflow | apps/native/src/jobs/job_queue.cpp:124-138 | two workers and two jobs of 2^63 bytes: both run and the counter reads nothing |
| QueueBudget.OneWorkerExact | apps/native/src/jobs/job_queue.cpp:44-48 | with one worker, the least the engine starts, accounting is exact whatever the figures |
| Orientations.ComposeMaps | apps/native/src/image/orientation.cpp:72-79 | mapping by the composition is mapping by the first, then by the second at the turned size |
| Orientations.InverseMaps | apps/native/src/image/orientation.cpp:81-87 | the inverse undoes the mapping both ways, and inside stays inside |
| Orientations.Group | apps/native/src/image/orientation.cpp:72-87 | the eight orientations are a group |
| Orientations.ApplyOrientation | apps/native/src/image/orientation.cpp:134-159 | writes every pixel of the turned picture, each from the source pixel that maps there |
| Orientations.OrientedUnique | apps/native/src/image/orientation.cpp:134-159 | only one picture has every source pixel where the mapping sends it |
| Orientations.OrientedTwice | apps/native/src/image/orientation.cpp:72-79 | turning twice is turning once by the composition |
| Orientations.OrientedBack | apps/native/src/image/orientation.cpp:81-87 | turning by the inverse restores the picture |
| Turns.TagMeans | apps/native/src/image/orientation.cpp:55-58 | for each of the eight values a stored point lands as far from the side its first row is shown at, and from that of its first column, as it is from them; any other value moves nothing |
| Turns.QuartersTurn | apps/native/src/image/orientation.cpp:89-91 | one quarter sends (x, y) to (h - 1 - y, x), none is upright, and quarters add up as orientations compose, for all integers |
| Turns.RotateIsClockwise | apps/native/src/image/orientation.cpp:89-91 | turning by any number of quarters is that many, modulo four, clockwise turns of the pixels |
| Turns.FlipIsMirror | apps/native/src/image/orientation.cpp:93-93 | flipping across reads every row backwards |
| Turns.FlipIsUpended | apps/native/src/image/orientation.cpp:95-95 | flipping down reads the rows from the bottom |
| Operations.IntersectContains | apps/native/src/image/rect.cpp:7-14 | the intersection holds exactly the points of both, and is the null rectangle when there are none |
| Geometries.FoldGeometry | apps/native/src/edit/operation.cpp:119-238 | the loop computes the fold of single steps, whose meaning in pixels, sizes and scales the Replay and Resizes rows give |
| Geometries.MapRectBackPreimage | apps/native/src/edit/operation.cpp:17-38 | the rectangle mapped back holds exactly the points the orientation sends into the rectangle |
| Geometries.MapRectBackIntersect | apps/native/src/edit/operation.cpp:17-38 | mapping back and clipping commute |
| Geometries.StraightenErases | apps/native/src/edit/operation.cpp:136-144 | a straighten erases every earlier one with no crop in between |
| Geometries.InscribedStaysInside | apps/native/src/edit/operation.cpp:53-77 | the straighten frame, turned by its angle, reaches at most half a pixel out of its region, unless a side was clamped to one |
| Geometries.FrameIsLargest | apps/native/src/edit/operation.cpp:60-71 | no larger frame of the same shape fits |
| Resizes.FrameToAPixel | apps/native/src/edit/operation.cpp:60-77 | the straighten frame has the largest size there is, cut to whole pixels, about the middle of its region |
| Resizes.SizesFollow | apps/native/src/edit/operation.cpp:119-165 | a resize sets the output size, a turn by an odd number of quarters swaps its sides, and the other operations keep it |
| Resizes.CropNearest | apps/native/src/edit/operation.cpp:166-185 | a crop of a resized picture comes from the place as far along in the source, per axis, to half a pixel |
| Resizes.ScaleKept | apps/native/src/edit/operation.cpp:226-233 | a crop leaves the size of a pixel as it was, to half a pixel of the result |
| Resizes.EnlargedCropIsCrop | apps/native/src/edit/operation.cpp:160-233 | for any orientation, enlarging by whole factors and cropping the enlarged rectangle is cropping the plain one and enlarging |
| Resizes.TurnedCropGoesRound | apps/native/src/edit/operation.cpp:189-215 | a crop of a straightened frame keeps its size and its middle goes round the frame's by that angle |
| Resizes.RenderFullHasSize | apps/native/src/edit/render.cpp:230-263 | whatever the operations, with resamplers that give the size asked for, the full render has the output size of the fold |
| Replay.CopyRegion | apps/native/src/edit/render.cpp:22-32 | the result is the picture cut to the rectangle |
| Replay.CropThroughOrientation | apps/native/src/edit/operation.cpp:17-38 | cropping the turned picture is turning the picture cropped by the rectangle mapped back |
| Replay.CropRectIs | apps/native/src/edit/operation.cpp:166-199 | a crop leaves the visible part of the request mapped back, and nothing when none is visible |
| Replay.TracksAll | apps/native/src/edit/operation.cpp:119-238 | after every prefix the folded rectangle and orientation give the picture made so far |
| Replay.RenderFullIsReplay | apps/native/src/edit/render.cpp:230-263 | for every image and every list of rotations, flips and crops, with colour and layer operations between, the full render is the picture made one operation at a time by clockwise turns, mirrors and cuts of pixels; it is refused exactly when a crop left nothing |
| Layers.Resolve | apps/native/src/edit/operation.cpp:243-254 | the first layer with the id; for zero the topmost adjustment layer; none exactly when there is none |
| Layers.FoldLayers | apps/native/src/edit/operation.cpp:258-358 | the loop computes the replay of single steps that the lemmas reason about |
| LayerEffects.SetterSets | apps/native/src/edit/operation.cpp:258-358 | a setter changes exactly its fields, kept in range, of the one layer it is aimed at; aimed at none it does nothing, but an adjustment gets a layer of its own on top |
| LayerEffects.AddedOnTop | apps/native/src/edit/operation.cpp:263-276 | a new layer comes on top with the next id and nothing set |
| LayerEffects.RemoveTakesOut | apps/native/src/edit/operation.cpp:287-293 | removing takes out the first layer with the id that is no background, and nothing when there is none |
| LayerEffects.MoveLands | apps/native/src/edit/operation.cpp:295-307 | moving lands at the index asked for, between the background and the top, and keeps the order of the others |
| Layers.ReplayWellFormed | apps/native/src/edit/operation.cpp:258-358 | for every list the bottom layer is the untouched background and ids are distinct and already handed out |
| Layers.NeverReused | apps/native/src/edit/operation.cpp:258-358 | an id that is gone never comes back, whatever operations follow |
| Layers.OneBackground | apps/native/src/edit/operation.cpp:258-358 | a second background exists exactly when the list adds one |
| Layers.ReplaceTopLayers | apps/native/src/edit/operation.cpp:309-350 | one setting after another of its kind means the second alone exactly when both reach one layer or the first changed nothing that stays |
| EditStacks.EditStack.Apply | apps/native/src/edit/edit_stack.cpp:7-23 | forgets the redo tail; replaces the top of the same kind under its id, or appends under a new one |
| SavedForms.SameKindIff | apps/native/src/edit/edit_stack.cpp:12-17 | one operation may take the place of another exactly when the two are saved under one name |
| EditStacks.EditStack.Undo | apps/native/src/edit/edit_stack.cpp:25-29 | moves back one step and says whether it did |
| EditStacks.EditStack.Redo | apps/native/src/edit/edit_stack.cpp:31-35 | moves forward one step and says whether it did |
| EditStacks.EditStack.Seek | apps/native/src/edit/edit_stack.cpp:37-39 | lands on the asked-for place or the end, and discards nothing |
| EditStacks.EditStack.Load | apps/native/src/edit/edit_stack.cpp:46-52 | entries numbered afresh from one, cursor kept in range |
| EditStacks.EditStack.Clear | apps/native/src/edit/edit_stack.cpp:41-44 | the history is empty, and the numbering goes on where it was |
| EditStacks.ApplyEdit | apps/native/src/engine/engine.cpp:503-526 | refuses, with the stack untouched, exactly when the list with the edit appended folds to nothing |
| EditStacks.RunOrdered | apps/native/src/edit/edit_stack.cpp:7-57 | in every run the cursor is in range and ids increase along the history and are below the next |
| EditStacks.RunIsZipper | apps/native/src/edit/edit_stack.cpp:7-57 | in every run the list and cursor are a past and a future, seeking being undo or redo one step at a time |
| EditStacks.CropEmptyIff | apps/native/src/edit/operation.cpp:166-220 | a crop leaves nothing exactly when the frame is upright and the request, in source pixels, misses it |
| EditStacks.EditedGood | apps/native/src/engine/engine.cpp:511-524 | an accepted edit leaves every point of the history renderable if and only if it does not replace a crop by one that misses the frame under it |
| EditStacks.RunGood | apps/native/src/engine/engine.cpp:503-560 | in every run without such a replacement under a resize, every point undo, redo or seek can reach folds to something |
| EditStacks.ReplacedCropEmpties | apps/native/src/engine/engine.cpp:511-524 | a 7 by 7 image, a resize and two crops for which an accepted edit empties the document |
| EditStacks.FoldRawSettings | apps/native/src/edit/operation.cpp:360-366 | the development in effect is the last one asked for, or the camera's |
| EditStacks.ReplaceTopIsAppend | apps/native/src/edit/edit_stack.cpp:7-23 | for straighten, resize, development and layer settings, replacing the top folds to the same geometry and development as appending; to the same layers exactly when the replaced setting can be dropped |
| ToneCurves.Sanitise | apps/native/src/edit/curve.cpp:19-49 | the loops compute clamping, stable order, thinning and ends as the lemmas take them |
| ToneCurves.SortIsStable | apps/native/src/edit/curve.cpp:30-33 | in order of x, the same points, equal x in the order given |
| ToneCurves.CleanShaped | apps/native/src/edit/curve.cpp:19-49 | whatever comes in, finite or not: nothing, or 2 to 16 points in the unit square, strictly to the right, from 0 to 1 |
| KeptPoints.CleanKeeps | apps/native/src/edit/curve.cpp:19-49 | a cleaned curve is kept points, each given, a spacing apart, with an end on a side that lacks one; each given point is kept, close behind a kept one, or to the right of fourteen |
| ToneCurves.CleaningSettles | apps/native/src/edit/curve.cpp:19-49 | a third cleaning changes nothing a second left |
| ToneCurves.CleanedForGood | apps/native/src/edit/curve.cpp:19-49 | nor does any later one |
| ToneCurves.SettledIff | apps/native/src/edit/curve.cpp:35-48 | one cleaning is enough exactly when no end was put beside a crowding point or past the room for points |
| ToneCurves.OnePassIsNotEnough | apps/native/src/edit/curve.cpp:45-47 | a one-point curve that two passes clean differently from one |
| Splines.CurveSpline.constructor | apps/native/src/edit/curve.cpp:61-99 | the object built is the cleaned points with their limited slopes, or the identity |
| Splines.CurveSpline.LimitedTangents | apps/native/src/edit/curve.cpp:69-98 | the in-place loop computes the slopes the SplineShapes rows pin down, pass by pass |
| Splines.CurveSpline.At | apps/native/src/edit/curve.cpp:101-127 | the scan samples the cubic of the segment that holds x |
| Splines.PulledInCircle | apps/native/src/edit/curve.cpp:83-98 | one pass puts a pair of slopes in the quarter circle of radius three and only shrinks it |
| SplineShapes.StartsFromMeans | apps/native/src/edit/curve.cpp:72-80 | before the limiter the slope at an inner point is the mean of the two beside it, and at an end that of the end segment |
| SplineShapes.PulledExactly | apps/native/src/edit/curve.cpp:83-98 | for slopes of any sign, a pass leaves a pair in the circle alone and brings one outside straight in to its edge |
| SplineShapes.PassTouchesTwo | apps/native/src/edit/curve.cpp:83-98 | passes go from the left, each changing the two slopes of its segment and no other |
| SplineShapes.PieceSlopes | apps/native/src/edit/curve.cpp:113-125 | each segment leaves its first point along the first slope and reaches its last along the second, but for a bend of second order |
| SplineShapes.QuadraticKept | apps/native/src/edit/curve.cpp:69-125 | where the limiter has nothing to do, between the inner two of four evenly spaced points of a quadratic the curve is the quadratic |
| SplineShapes.CurveTurnsRound | apps/native/src/edit/curve.cpp:69-80 | turning the points half round the square turns the curve before the limiter half round |
| SplineShapes.IdentityIff | apps/native/src/edit/curve.cpp:51-66 | the identity is used exactly when no cleaned point is more than a thousandth off y = x |
| Splines.LimiterHolds | apps/native/src/edit/curve.cpp:83-98 | later passes, which shrink a shared slope, leave earlier segments inside their circles |
| Splines.CubicMonotone | apps/native/src/edit/curve.cpp:113-125 | slopes in the circle make the cubic rise over its whole segment |
| Splines.SampleInterpolates | apps/native/src/edit/curve.cpp:101-127 | the curve passes through every cleaned point, rising or not |
| Splines.NeverFallsIff | apps/native/src/edit/curve.cpp:61-127 | the sampled curve never falls if and only if the cleaned points never do, or the identity is used |
| Splines.StaysInSegment | apps/native/src/edit/curve.cpp:101-127 | between two points of a rising curve the sample stays between their values |
| Splines.IdentityIsNear | apps/native/src/edit/curve.cpp:51-66 | the identity shortcut misses each point by at most the tolerance |
| Splines.LineIsIdentity | apps/native/src/edit/curve.cpp:51-59 | the cubic through points on y = x is y = x |
| Splines.SplineSettled | apps/native/src/edit/curve.cpp:61-66 | a stored curve builds the same spline after any number of cleanings |
| Wire.EncodeFrame | apps/native/src/protocol/frame.cpp:18-28 | length, header, length, payload |
| Wire.LowByteFirst | apps/native/src/protocol/frame.cpp:9-16 | lengths are written low byte first |
| Wire.ScanSplit | apps/desktop/electron/engine/engine-client.ts:156-216 | scanning a longer stream finds what its beginning held and then what the rest holds |
| Wire.ScanOfEncoded | apps/native/src/protocol/frame.cpp:18-28 | encoded frames within the limits come out as they went in, whatever follows |
| Wire.RoundTrip | apps/native/src/protocol/frame.cpp:18-28 | and leave nothing over |
| Clients.EngineClient.Consume | apps/desktop/electron/engine/engine-client.ts:156-216 | one run of the data handler, returning or throwing; what it does to requests and events is in the Settling rows; it leaves the threshold at exactly what the next look needs, or at eight with frames unread after a throw |
| Clients.EngineClient.Look | apps/desktop/electron/engine/engine-client.ts:160-214 | one turn of the loop: takes one frame, or stops where more bytes are needed, or gives up, or throws with the frame already removed |
| Clients.EngineClient.Coalesce | apps/desktop/electron/engine/engine-client.ts:149-154 | joins the chunks and changes nothing else |
| Clients.EngineClient.AbortStream | apps/desktop/electron/engine/engine-client.ts:219-227 | everything waiting is rejected, the buffer is dropped |
| Clients.EngineClient.FailAllPending | apps/desktop/electron/engine/engine-client.ts:140-146 | every pending request is rejected once, in order |
| Clients.EngineClient.Request | apps/desktop/electron/engine/engine-client.ts:229-262 | writes the encoded frame and waits under a new id, or does neither without an engine |
| Clients.EngineClient.Timeout | apps/desktop/electron/engine/engine-client.ts:255-258 | rejects the one request |
| Clients.EngineClient.Exit | apps/desktop/electron/engine/engine-client.ts:98-107 | rejects everything and starts from an empty buffer |
| Clients.EngineClient.SpawnFailed | apps/desktop/electron/engine/engine-client.ts:93-97 | rejects everything and keeps the bytes held |
| Clients.EngineClient.Start | apps/desktop/electron/engine/engine-client.ts:77-91 | there is an engine again, and nothing else changes |
| Clients.DigestIsScan | apps/desktop/electron/engine/engine-client.ts:156-216 | one run of the handler does what the frames of the whole buffer do, and gives up when scanning does, if and only if nothing follows a null header |
| Clients.AnyChunking | apps/desktop/electron/engine/engine-client.ts:156-216 | under every chunking of a stream the client ends where a parser of the whole stream would leave it, if and only if nothing follows a null header and nothing follows the byte that makes it give up |
| Clients.ChunkingIff | apps/desktop/electron/engine/engine-client.ts:156-227 | for one chunking of any stream, with any number of null headers and of times it gives up: the client ends as the whole-buffer parser says if and only if it reads to the end, or all after the chunk with which it gives up is silent |
| Clients.AbortAnyChunking | apps/desktop/electron/engine/engine-client.ts:156-227 | a stream that makes it give up does so after the same deliveries however it is cut; the chunks after that change nothing if and only if they are silent, which for whole frames means answers only |
| Clients.EncodedDelivered | apps/desktop/electron/engine/engine-client.ts:156-216 | encoded frames are delivered exactly under every cut, if and only if none but the last has a null header |
| Settling.ChunkSettles | apps/desktop/electron/engine/engine-client.ts:156-227 | a run of the handler resolves each waiting request that a frame it reads answers, with the first such frame; rejects the others exactly when it gives up; passes the event headers on in order; and leaves the rest waiting in order |
| Settling.StretchSettles | apps/desktop/electron/engine/engine-client.ts:156-227 | the same over all frames of a stretch in which nothing follows a null header |
| Settling.MoveSettles | apps/desktop/electron/engine/engine-client.ts:93-262 | over every move of a client, a request is rejected exactly by its timer, an exit, a failed spawn or a stream given up before it was answered, and resolved exactly by the first frame that answers it |
| Settling.WaitingAreDistinct | apps/desktop/electron/engine/engine-client.ts:229-262 | in every life of a client waiting requests have different numbers |
| Clients.LateBytesAreAFreshStream | apps/desktop/electron/engine/engine-client.ts:219-227 | the same bytes cut after a bad frame deliver a frame that uncut they do not |
| Clients.LateBytesIff | apps/desktop/electron/engine/engine-client.ts:219-227 | bytes after giving up that hold no further error leave no trace if and only if they are whole answers |
| Clients.SilentIff | apps/desktop/electron/engine/engine-client.ts:219-227 | and in general, further errors included, if and only if every run of the handler reads answers only and nothing is left over |
| Clients.NullHidesTheNext | apps/desktop/electron/engine/engine-client.ts:195-208 | an event behind a null header in one chunk stays unread; cut between the two it is delivered |
| Clients.EveryRequestOnce | apps/desktop/electron/engine/engine-client.ts:140-262 | in every life of a client the ids handed out are, counted with repeats, the pending and the settled ones |
| Clients.SettledAtMostOnce | apps/desktop/electron/engine/engine-client.ts:140-262 | so no request is settled twice, none both waits and is settled, and none is lost |
| Transport.Input.ReadExact | apps/native/src/protocol/stdio_transport.cpp:33-43 | whatever pieces the stream gives, all the bytes asked for, or a failure at its end |
| Transport.Input.ReadFrame | apps/native/src/protocol/stdio_transport.cpp:45-81 | reads what the rest of the stream holds, with the source's errors, taking exactly the bytes of what it read |
| Transport.EndsAgree | apps/native/src/protocol/stdio_transport.cpp:45-81 | engine and client take the same bytes for the same frame and refuse the same lengths |
| Transport.SameFrames | apps/native/src/protocol/stdio_transport.cpp:45-81 | over a whole stream they find the same frames |
| Transport.ReadsWhatWasWritten | apps/native/src/protocol/stdio_transport.cpp:45-81 | frames within the limits are read back, then the end of the stream |
| Transport.CutShort | apps/native/src/protocol/stdio_transport.cpp:45-81 | a frame cut anywhere is an error, or the end of the stream when less than a length is left, and never a frame |
| Serialization.CurveFromJson | apps/native/src/edit/serialize.cpp:42-51 | reads the objects of a list and cleans them |
| Serialization.OperationsFromJson | apps/native/src/edit/serialize.cpp:386-392 | reads every operation or reports the first refusal |
| Serialization.KindRoundTrip | apps/native/src/edit/serialize.cpp:231-378 | no two kinds share a name, so each is found again |
| Serialization.RoundTrip | apps/native/src/edit/serialize.cpp:149-378 | every operation within what reading gives reads back the same, its curves cleaned once more |
| Serialization.FromJsonLoadable | apps/native/src/edit/serialize.cpp:231-378 | whatever the JSON, what is read is in range, its curves in shape, and adds no background, if and only if the whole numbers it keeps are not fractions outside 32 bits |
| Serialization.ReopenedSettles | apps/native/src/edit/serialize.cpp:380-392 | a list saved and reopened any number of times is what it was after the first |
| Serialization.SplinesUnchanged | apps/native/src/edit/serialize.cpp:42-51 | the four splines of a loaded adjustment are the same after any saves |
| Serialization.ResavedFoldsAlike | apps/native/src/edit/serialize.cpp:149-378 | saving does not change the geometry |
| SavedForms.MissingIsNeutral | apps/native/src/edit/serialize.cpp:70-108 | saved adjustments with any members missing read as those that are there and the neutral ones for the rest |
| Serialization.LoadedOneBackground | apps/native/src/edit/serialize.cpp:279-288 | a loaded list has the one background at the bottom and no other |
| RenderCaches.MatchesIff | apps/native/src/edit/render.cpp:163-171 | two plans match if and only if they make the same passes over the source |
| RenderCaches.MatchesRendersAlike | apps/native/src/edit/render.cpp:190-214 | whatever the passes compute, matching plans give the same base |
| RenderCaches.Store.Put | apps/native/src/engine/document_store.cpp:32-38 | a new id, the buffer under it, and every fitted copy forgotten |
| RenderCaches.Store.Cache | apps/native/src/engine/document_store.cpp:67-75 | keeps a fitted copy, forgetting the others when the plan does not match |
| RenderCaches.Store.FitOne | apps/native/src/engine/engine.cpp:651-660 | gives what fitting from scratch gives, whether kept or made |
| RenderCaches.FitMasks | apps/native/src/engine/engine.cpp:636-663 | exactly the rasters the layers ask for that fit this crop and exist, each as fitted from scratch |
| RenderCaches.FitPatches | apps/native/src/engine/engine.cpp:665-690 | the same for patches |
| RenderCaches.Document.CachedBase | apps/native/src/engine/document_store.cpp:17-22 | the base kept, only for a matching plan and the same development |
| RenderCaches.Document.DevelopedSource | apps/native/src/engine/document_store.cpp:129-153 | the pixels of the settings, decoded again only when they differ from the last |
| RenderCaches.Document.Base | apps/native/src/engine/engine.cpp:969-978 | the base is what working it out from scratch gives, and is there for the next render |
| RenderCaches.CachedBaseIsFresh | apps/native/src/engine/document_store.cpp:17-30 | a base is only reused when it equals a fresh one, also for settings that differ in name only |
| BasePictures.BaseHasSize | apps/native/src/edit/render.cpp:190-214 | with passes that give the size asked for, the base is exactly as wide and high as any plan says |
| BasePictures.BaseIsReplay | apps/native/src/engine/engine.cpp:955-978 | without resampling and with room in the viewport, a plan exists exactly when something is left, and its base is the picture the operations make one at a time of the developed source |
| BasePictures.LatestDevelopmentShows | apps/native/src/engine/document_store.cpp:129-153 | the base shows the pixels of the development asked for last, if it asks for one of its own and the file is raw, and the file's own otherwise |
| BasePictures.RastersFollowCrop | apps/native/src/engine/engine.cpp:636-690 | of masks and patches exactly those are used that are as large as the picture the turns, mirrors and crops leave |
| RenderCaches.EveryRunFresh | apps/native/src/engine/document_store.cpp:17-153 | in every interleaving of renders, stores and careful restores all that is kept equals recomputing, and all that renders went on with equals what recomputing gave at the time |
| RenderCaches.RestoreIff | apps/native/src/engine/document_store.cpp:40-45 | restoring a buffer keeps all of that if and only if no render carries a buffer for its id that would fit differently |
| RenderCaches.CarriedGoesStale | apps/native/src/engine/document_store.cpp:40-75 | and when one does, its next step uses and leaves behind a stale copy |
| RenderCaches.OpeningIsCareful | apps/native/src/engine/engine.cpp:593-601 | restoring into a document nobody has rendered is always careful, whatever the ids |
| RenderCaches.RebindingGoesStale | apps/native/src/engine/document_store.cpp:40-45 | a run from a new document, five steps long, after which a stale copy is kept and has been used |
| Previews.PreviewBase | apps/native/src/engine/engine.cpp:955-978 | the base of a preview is the one its operations and viewport call for |
| Previews.SliderReusesBase | apps/native/src/engine/engine.cpp:966-978 | after any colour or layer edits the base already there is found again |
| Previews.PreviewFits | apps/native/src/edit/render.cpp:173-188 | a preview is no larger than the document or the viewport, and at least one pixel |
| BoxFilters.BoxHorizontal | apps/native/src/edit/detail.cpp:88-103 | for every size and radius the running sums give the direct average over the clamped window |
| BoxFilters.BoxVertical | apps/native/src/edit/detail.cpp:114-136 | the pass downwards is the pass across of the transposed plane |
| BoxFilters.Blur | apps/native/src/edit/detail.cpp:139-147 | three passes each way, none for a radius below one |
| BoxFilters.BoxCombines | apps/native/src/edit/detail.cpp:88-136 | averaging commutes with every combination of planes and keeps constants |
| BoxFilters.ImpulseSpreads | apps/native/src/edit/detail.cpp:88-103 | a single bright place is spread evenly over the places within the radius and no further |
| BoxFilters.BlurredBetween | apps/native/src/edit/detail.cpp:139-147 | blurring never leaves the range of what is blurred |
| GuidedFilters.GuidedFilter | apps/native/src/edit/detail.cpp:172-214 | the in-place passes compute the guided filter of the planes as they came in |
| GuidedLines.LineIsBest | apps/native/src/edit/detail.cpp:196-203 | the line of a neighbourhood has the least mean squared miss of the value from the guide, a price of epsilon on the squared slope included, and is the only one |
| GuidedLines.GuidedIsMeanPrediction | apps/native/src/edit/detail.cpp:205-213 | each pixel of the result is the mean of what the lines of its neighbourhood predict for it |
| GuidedFilters.VarianceNotNegative | apps/native/src/edit/detail.cpp:178-198 | the two averaging passes never make a variance negative |
| GuidedFilters.DivisorPositive | apps/native/src/edit/detail.cpp:197-203 | every division is by at least epsilon |
| GuidedFilters.GuidedAffine | apps/native/src/edit/detail.cpp:172-214 | scaling and shifting the value plane scales and shifts the result |
| GuidedFilters.GuidedConstant | apps/native/src/edit/detail.cpp:172-214 | a flat value plane comes out as it went in |
| Backgrounds.Pass | apps/native/src/edit/decontaminate.cpp:25-58 | one pass, reporting a missing cell exactly when one is left |
| Backgrounds.FloodFill | apps/native/src/edit/decontaminate.cpp:20-60 | stopping early changes nothing: the result is that of all width plus height passes |
| BackgroundMeans.SpreadBalances | apps/native/src/edit/decontaminate.cpp:25-58 | a pass leaves a known cell and an unreached one; any other becomes known with the colour about which its known neighbours balance |
| BackgroundMeans.StartsFromMean | apps/native/src/edit/decontaminate.cpp:149-155 | a cell starts from what it gathered over its weight |
| BackgroundMeans.SmoothIsBox | apps/native/src/edit/decontaminate.cpp:63-84 | smoothing a channel over square windows is the two passes of the box filter over that channel |
| Backgrounds.PassesReach | apps/native/src/edit/decontaminate.cpp:20-60 | a cell is known after n passes if and only if a known one was within n steps, diagonals included |
| Backgrounds.FillsTheGrid | apps/native/src/edit/decontaminate.cpp:20-60 | one known cell is enough to fill the grid |
| Backgrounds.PassesBetween | apps/native/src/edit/decontaminate.cpp:20-60 | no pass leaves the range of the known cells, in any channel |
| Backgrounds.Smooth | apps/native/src/edit/decontaminate.cpp:63-84 | every cell becomes the average of its clamped window |
| Backgrounds.Estimate | apps/native/src/edit/decontaminate.cpp:149-161 | none exactly when no cell has seen background; otherwise the normalised grid, filled and smoothed |
| Backgrounds.EstimateBetween | apps/native/src/edit/decontaminate.cpp:149-161 | the estimate has a colour everywhere, between the extremes of the background seen |
| Backgrounds.SampleBetween | apps/native/src/edit/decontaminate.cpp:88-107 | reading it at any pixel, inside or out, stays in range |
| BackgroundMeans.SampleReadsRamp | apps/native/src/edit/decontaminate.cpp:88-107 | a grid that changes evenly is read back evenly, at the pixel's own place on the grid, kept to the middles of the outer cells |
| Downscaling.DownscaleBox | apps/native/src/image/resample.cpp:43-120 | the errors, and for every target pixel the alpha-weighted average of its box |
| Downscaling.BoxInRange | apps/native/src/image/resample.cpp:61-86 | every box holds a pixel and lies in the region, whatever the sizes |
| Downscaling.TilesIff | apps/native/src/image/resample.cpp:61-86 | every pixel is in a box; in no more than one exactly when there are no more boxes than pixels |
| Downscaling.BoxPixelBetween | apps/native/src/image/resample.cpp:88-116 | each channel lies between the extremes of the pixels that can be seen in the box, and alpha between those of all |
| ReducedPixels.BoxBalances | apps/native/src/image/resample.cpp:88-116 | a reduced pixel is clear exactly when nothing of its box can be seen; otherwise it is the rounded colour about which the box balances by alpha, and the rounded mean alpha |
| Downscaling.FitFits | apps/native/src/image/resample.cpp:24-41 | a fit is inside its box, no larger than the source, at least one pixel, and its reduction tiles |
| Downscaling.FitLargest | apps/native/src/image/resample.cpp:24-41 | a fit keeps the shape to half a pixel and is as large as the box and the source allow |
| Faces.OverlapSymmetric | apps/native/src/ai/face_detector.cpp:21-33 | overlap does not depend on the order of the two |
| Faces.OverlapRange | apps/native/src/ai/face_detector.cpp:21-33 | it is a fraction |
| FaceBoxes.OverlapIsShare | apps/native/src/ai/face_detector.cpp:21-33 | the overlap is the area of the box two boxes share over the area of both together, and nothing when they share no inside |
| FaceBoxes.SaidIsDecoded | apps/native/src/ai/face_detector.cpp:84-103 | the face an anchor states, middle and points from its cell and sides as logarithms, is the face decoded, in fractions of the picture |
| FaceBoxes.FoundIff | apps/native/src/ai/face_detector.cpp:57-105 | the faces found are those of anchors, in whole maps at strides 8, 16 and 32, scored at least 0.6, and no others |
| Faces.SuppressedApart | apps/native/src/ai/face_detector.cpp:106-116 | no two faces kept overlap by more than the threshold |
| Faces.SuppressedAccounts | apps/native/src/ai/face_detector.cpp:106-116 | every face found is kept or overlaps a kept one at least as sure, however ties are ordered |
| Faces.SuppressedAgain | apps/native/src/ai/face_detector.cpp:106-116 | suppressing again drops nothing |
| Faces.DecodeFaces | apps/native/src/ai/face_detector.cpp:57-127 | the faces returned, each with its box, score and five points, are some of those decoded, apart, account for all of them, largest first |
| Faces.NoneTwice | apps/native/src/ai/face_detector.cpp:106-126 | no face is returned twice, since every box has an area and overlaps itself wholly |
| JpegMarkers.ForEachJpegSegment | apps/native/src/decoder/jpeg_marker.cpp:5-28 | the walk visits the segments up to the scan or the first thing that is not one, and none after the visitor asks it to stop |
| JpegMarkers.WalkItems | apps/native/src/decoder/jpeg_marker.cpp:5-28 | it finds the segments that were written, past any markers without a length |
| JpegMarkers.WriteIccSegments | apps/native/src/export/jpeg_encoder.cpp:37-62 | the numbered pieces, or none for an empty or an oversized profile |
| JpegMarkers.PieceLayout | apps/native/src/export/jpeg_encoder.cpp:37-62 | each piece has the marker, the name closed by a zero, its number from one, the count and its bytes |
| JpegMarkers.ExtractIcc | apps/native/src/decoder/jpeg_decoder.cpp:61-90 | the pieces in order of their numbers, or nothing when one is missing |
| JpegMarkers.ProfileBack | apps/native/src/decoder/jpeg_decoder.cpp:61-90 | the profile comes back whatever order its segments stand in, however often, and whatever stands between |
| JpegMarkers.FileBack | apps/native/src/export/jpeg_encoder.cpp:37-62 | written into a file and read again a profile is the same if and only if it has at most 255 pieces |
| Exif.ExtractJpegExif | apps/native/src/decoder/exif.cpp:28-38 | the block of the first application segment that carries one |
| Exif.BlockBack | apps/native/src/decoder/exif.cpp:28-38 | the first block written into a file is found, past any other segments and whatever follows, also another block |
| Exif.ReadsInsideIff | apps/native/src/decoder/exif.cpp:53-56 | the guard keeps the reads inside the block if and only if the offset is neither of the last two 32-bit numbers, or the block is that long |
| Exif.GuardPassesWrongly | apps/native/src/decoder/exif.cpp:53-54 | an eight-byte block whose offset passes the guard and lies outside |
| Exif.ReadOrientation | apps/native/src/decoder/exif.cpp:40-65 | the value of the first orientation entry inside the block, or upright; nothing is said of a read outside |
| ExifBlocks.BlockReads | apps/native/src/decoder/exif.cpp:40-65 | a block laid out in either byte order, with its directory anywhere, reads as its first orientation entry says |
| ExifBlocks.WrittenOrientationBack | apps/native/src/decoder/exif.cpp:40-65 | an orientation written among other entries comes back |
| Exif.NormalizeOrientationTag | apps/native/src/decoder/exif.cpp:67-88 | sets that entry to one and nothing else; nothing is said of a read outside |
| Exif.NormalizedIsUpright | apps/native/src/decoder/exif.cpp:67-88 | after normalising every block reads as upright, and at most two bytes have changed |
| Exif.NormalizedTwice | apps/native/src/decoder/exif.cpp:67-88 | normalising again changes nothing |

## Left out

- Replay.RenderFullIsReplay: covers lists without resizes and without straightens away from zero, because resampling and turning are filters that are only named here; a crop after a straighten turns its centre the other way from the sampler and is not claimed to refine anything.
- Geometries.InscribedStaysInside: sine and cosine are parameters with the facts used (signs, squares adding to one).
- Splines.CurveSpline.constructor: the square root is a parameter of which only values above nine are used.
- Serialization.FromJsonLoadable: turning a fraction outside 32 bits into a whole number is undefined in the source; here it is cut to its whole part.
- QueueProtocol.InvStep: ids are fresh, as the host makes them.
- Exif.ReadOrientation: a read outside the block has no value here, only a name.
- Clients.EngineClient.Consume: writing to the child process, its state events, and errors thrown by the listeners of an event are not modelled.
- The face model's inference: the exponential and the square root are parameters.
- Fairness of the queue: a large job can be overtaken again and again, so progress is proved and freedom from starvation is not claimed.
- Cancellation inside a render: the checks that abandon a pass half way are left out; in the caches a render may be abandoned between any two steps.
- Floating-point rounding, the 16-bit store between layer passes, and overflow of 32-bit rectangle coordinates: arithmetic is exact, except for the queue's 64-bit counter and the widths of encoded lengths.
- Masks and patches are kept by the same steps in the source, twice; `RenderCaches.Store` stands for either, and the interleavings are stated for one store beside the base.
- The layer compositing itself, colour conversion, Lanczos and bilinear sampling, and the mask shapes: pixel arithmetic with no state of its own.
- Gathering samples into the cells of the background grid: `Backgrounds.Estimate` starts from the sums.
- JSON text, codecs, the container format, raw decoding and file access: decoding is a function of the settings, JSON is a datatype, and member names are an enumeration.
- Memory estimates and the other methods of the engine's dispatch: an estimate is any 64-bit number.
- The user interface, the store of presets, the thumbnail cache and the batch loop.
