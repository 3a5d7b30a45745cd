# Walking-in-place locomotion and the room table

This project models, in Dafny, the walking-in-place filter of a browser VR
meeting application and the server's room-membership table.

The walking filter turns the stream of horizontal head positions into a
displacement of the viewer:

- a **circle buffer** keeps the last sixty samples. Offset 0 is the newest
  sample, and each push rotates the write head one slot back;
- the **first-step detector** looks for a straight out-and-back excursion of
  the head. That excursion is the swing of a foot. The detector emits a step
  event carrying the two apices, the current position and the stepping foot,
  unless:
  - recent motion is too jittery (the entropy);
  - the trace has not come back to the current spot;
  - the excursion is too small;
  - or the excursion is not straight enough;
- a **walking tracker** is seeded from that event and measures the progress
  `t` of the head along the axis from the stance apex to the stepping apex:
  - it reports Movement(Δt) and Footfall(foot) events;
  - it switches feet when `t` falls back under 95% of its peak;
  - it dies when its vitality or its axis collapses;
- the **walker** owns one detector and at most one tracker. It adds
  `forward · 0.024 · Δt` to a displacement for each movement, applies the
  displacement to the camera and decays it by 0.96;
- the **fixed-update provider** turns frames of any duration into fixed
  updates `1000 / framerate` milliseconds apart.

The server keeps a map from room id to the set of participant ids:

- `POST /join` adds a participant, creating the room if needed, and answers
  with the members;
- `POST /leave` answers 400 for an unknown room. Otherwise it removes the
  participant and deletes the room once it is empty.

## How the model is built

Each source class is a Dafny class whose methods change its fields in place.
Each method is proved against a specification function on values:

| class | specification function |
|---|---|
| `CircleBuffer` | its ghost `Contents` and `Shifted` |
| `FirstStepDetector` | `Observed`, `Emitted` and `Detect` |
| `WalkingTracker` | `Reset`, `Advance`, `Peaked`, `Reseed` and `Track` |
| `Walker` | `Noticed`, `Followed` and `WalkerStep` |
| `FixedUpdateProvider` | `Fire` |
| `RoomTable` | `Joined` and `Left` |

The properties of the source are proved as lemmas about those functions.

Geometry is exact real arithmetic (module `Geometry`), with these choices:

- Dafny's reals have no square root, so every class that needs one is given a
  function `sqrt` that satisfies `IsSqrt`. That predicate pins the root down
  uniquely on the non-negative reals.
- Each threshold comparison is also restated on squared lengths:
  - `DetectCharacterised` for the detector;
  - `AxisCollapseBySquares` for the tracker.

The axis always runs from the stance apex to the stepping apex: left minus
right when the left foot steps, right minus left otherwise
(public/walker.js:174-179).

## Model

| member | source | states |
|---|---|---|
| SampleBuffer.Shifted | public/walker.js:16-19 | after a push the window keeps its length, the pushed sample is at offset 0 and every other sample moves one offset older, so the oldest falls out |
| SampleBuffer.PushAllWindow | public/walker.js:16-25 | after any run of pushes, offset i holds the i-th newest pushed sample, or else the sample that was at offset i minus the number of pushes (so after N+1 pushes into N slots offset N-1 holds the second push) |
| SampleBuffer.SlotIsMod | public/walker.js:25 | the slot the model reads for offset i is the source's `(idx + i) % length` |
| SampleBuffer.BackIsMod | public/walker.js:17 | the source's `(idx + length - 1) % length` moves the head one slot back, wrapping from 0 to the last slot |
| SampleBuffer.CircleBuffer.constructor | public/walker.js:6-10 | a new buffer holds numSamples zero samples |
| SampleBuffer.CircleBuffer.FromValues | public/walker.js:6-10 | a buffer built with an initializer holds the initializer's values in order |
| SampleBuffer.CircleBuffer.Length | public/walker.js:12-14 | the length is the number of samples, fixed at construction |
| SampleBuffer.CircleBuffer.At | public/walker.js:21-26 | an offset inside the buffer gives the sample at that offset; an offset at or past the length gives the out-of-bounds error |
| SampleBuffer.CircleBuffer.Put | public/walker.js:18 | overwriting offset i in place changes that sample only; an offset past the end is the out-of-bounds error and changes nothing |
| SampleBuffer.CircleBuffer.Push | public/walker.js:16-19 | a push leaves the buffer holding `Shifted` of its old samples, with the length unchanged; on an empty buffer it is the error that `at(0)` throws |
| StepDetection.ReturnIndexFrom | public/walker.js:45-54 | the return index is the first offset from the start whose sample is within 0.03 of the newest one, or the window length when there is none |
| StepDetection.ApexIndex | public/walker.js:56-64 | the apex is the first offset in [1, k) whose sample is farthest from the newest one: none is farther, and none before it is as far |
| StepDetection.PerpSum | public/walker.js:70-83 | the reference sum of squared distances from the line along the unnormalised axis is never negative |
| StepDetection.ProjectionSumIsPerpSum | public/walker.js:70-83 | the detector's sum with the axis normalised by its length equals the square-root-free sum of `|v|^2 - (v.a)^2/|a|^2` |
| StepDetection.EventFor | public/walker.js:89-107 | the event's position is the newest sample; the apex-side apex is 0.8 of the excursion, the other -1.6 of it; the right foot steps exactly when the cross product of forward and the axis is positive |
| StepDetection.Detect | public/walker.js:45-107 | a reported step carries the newest sample and needs a return to it from offset 20 on; `DetectCharacterised` gives the full condition |
| StepDetection.Observed | public/walker.js:36-40 | after an update the position is the newest sample, the others are one offset older, and the entropy is 0.98 of the old one plus the distance from the previous newest sample |
| StepDetection.Emitted | public/walker.js:41-43 | nothing is emitted while the entropy is over 0.25, and an emitted step carries the newest sample |
| StepDetection.DetectCharacterised | public/walker.js:45-107 | a step is found exactly when a return exists from offset 20 on, the apex is at least 0.09 away and the perpendicular sum is at most k·0.03^2; the event's apices and foot are then fixed by the unnormalised excursion |
| StepDetection.StillWindowHasNoStep | public/walker.js:56-68 | a window that holds one position throughout never yields a step, because its apex distance 0 is under 0.09^2 |
| StepDetection.StandingStillKeepsState | public/walker.js:36-40 | feeding the position that every sample holds keeps the window and a zero entropy unchanged |
| StepDetection.StandingStillIsQuiet | public/walker.js:35-68 | a detector already at rest on p, with every sample equal to p and zero entropy, stays exactly as it is and emits nothing when fed p again (given sqrt(0) = 0) |
| StepDetection.JitterBlocksSteps | public/walker.js:39-43 | once the decayed entropy alone exceeds 0.25, no position yields a step and the entropy stays over the threshold |
| StepDetection.ExcursionIsAStep | public/walker.js:45-107 | a window whose newest sample and twentieth sample are at the origin, with the nineteen samples between them 0.1 out along x, is detected as a step; facing along y, the left foot steps with its apex at (-0.16, 0) and the right apex at (0.08, 0) |
| StepDetection.StepWindowHasAStep | public/walker.js:45-107 | such a window exists, so the step condition can be met and the lemmas that assume a detected step are not vacuous |
| StepDetection.FirstStepDetector.constructor | public/walker.js:30-31 | a new detector has sixty zero samples and zero entropy |
| StepDetection.FirstStepDetector.Sample | public/walker.js:21-26 | reading an offset inside the window gives the sample at that offset |
| StepDetection.FirstStepDetector.FindReturnIndex | public/walker.js:45-50 | the scan loop stops at `ReturnIndexFrom(window, 20)` |
| StepDetection.FirstStepDetector.FindApex | public/walker.js:56-64 | the apex loop finds `ApexIndex` and its squared distance, or offset 0 and -1 for an empty range |
| StepDetection.FirstStepDetector.SumSquaredProjectionDistances | public/walker.js:74-83 | the summing loop computes `ProjectionSum` over offsets [1, k) |
| StepDetection.FirstStepDetector.Search | public/walker.js:45-107 | the checks after the entropy test report exactly `Detect` of the window |
| StepDetection.FirstStepDetector.Record | public/walker.js:36-40 | the push and the entropy update leave the state `Observed` gives, and return the newest sample |
| StepDetection.FirstStepDetector.Update | public/walker.js:35-108 | an update leaves the state `Observed` and reports `Emitted`: nothing while the entropy is over 0.25, else `Detect` |
| StepDetection.FirstStepDetector.Reset | public/walker.js:110-114 | reset zeroes every sample in place and keeps the entropy |
| GaitTracking.ProgressTimesSq | public/walker.js:199-201 | t times the squared axis length is the dot product of the relative position with the axis |
| GaitTracking.Advance | public/walker.js:191-206 | `_updateTAndVitality` sets t to the progress of the absolute position and the scratch vector to the position relative to the stance apex, and changes no other field but the vitality |
| GaitTracking.VitalityBound | public/walker.js:199-205 | one update multiplies a non-negative vitality by at most 0.95 plus the forward progress made, whatever the deviation from the axis, so only forward progress can make it grow |
| GaitTracking.Seed | public/walker.js:165-167 | a tracker seeded from a step event has the event's stance and stepping apices in those roles, the event's foot stepping, its peak at the event's position with maxT = t, and vitality 1 |
| GaitTracking.Reseed | public/walker.js:233-241 | the corrected switch flips the foot, makes the old peak position the stance apex and the old stance apex the stepping apex, and restarts the peak at the position itself with maxT = t and vitality 1 |
| GaitTracking.ReseedAsWritten | public/walker.js:233-241 | the switch as written remembers the peak at the position minus the new stance apex; `ReseedAsWrittenMisplacesPeak` shows that every other field equals `Reseed`'s |
| GaitTracking.Track | public/walker.js:208-248 | an update with vitality under 0.1 returns false and changes nothing; a live result has vitality at least 0.1 and an axis at least 0.03 long; events come only from an update whose vitality held, and there are at most two |
| GaitTracking.ResetEstablishesInv | public/walker.js:169-189 | `_reset` leaves a consistent tracker: axis from stance to stepping apex, its length, unit forward, t and maxT the progress of their positions; vitality 1 and the peak at the given position |
| GaitTracking.PeakedKeepsInv | public/walker.js:213-219 | taking a position keeps the tracker consistent, sets t to the position's progress and raises maxT to t when t passes it |
| GaitTracking.TrackKeepsInv | public/walker.js:208-241 | every update of a consistent tracker leaves a consistent one, in particular with `t <= maxT` |
| GaitTracking.TrackEvents | public/walker.js:208-231 | the event list is exactly Movement(t - priorT), followed by a Footfall of the stepping foot when `priorT < 0.5 <= t`, when the tracker was alive, keeps its vitality at or above 0.1 after the update, and t grows, and empty otherwise |
| GaitTracking.TrackLiveness | public/walker.js:208-247 | an update returns false with no change at all when vitality is already under 0.1, and returns true exactly when the vitality stays at least 0.1 and the resulting axis is at least 0.03 long |
| GaitTracking.TrackSwitchesFeet | public/walker.js:233-241 | feet switch exactly when a live update leaves t under 95% of its peak: the stepping apex becomes the peak position, the foot flips, vitality is 1 and maxT restarts at t; otherwise apices and foot are kept |
| GaitTracking.ForwardIsUnitNormal | public/walker.js:174-182 | forward is a unit vector at right angles to the axis whenever the axis is not zero |
| GaitTracking.AxisCollapseBySquares | public/walker.js:243-245 | the collapse test `axisLength < 0.03` is the test `|axis|^2 < 0.0009` |
| GaitTracking.ProgressOfOrigin | public/walker.js:96-101 | with apices at 0.8 and -1.6 of an excursion, the start point lies one third of the way from stance to stepping apex |
| GaitTracking.SeededProgress | public/walker.js:199-201 | a position a third of the way along the axis has t exactly 1/3 |
| GaitTracking.SeedAtOneThird | public/walker.js:165-189 | a tracker seeded from apices at 0.8 and -1.6 of a non-zero excursion is consistent, has a positive axis and starts at t = maxT = 1/3 with vitality 1 |
| GaitTracking.DetectedStepSeedsAtOneThird | public/walker.js:265-267 | every step the detector reports seeds a consistent tracker with a positive axis, t = maxT = 1/3 and vitality 1 |
| GaitTracking.ReseedKeepsPeak | public/walker.js:233-241 | the corrected switch keeps the tracker consistent: the old peak becomes the stance apex, the old stance apex the stepping apex, and the peak is remembered at the position itself |
| GaitTracking.ReseedAsWrittenMisplacesPeak | public/walker.js:233-241 | the switch as written stores the peak at the position relative to the new stance apex, and is consistent only when the stance apex is at right angles to the axis |
| GaitTracking.ScratchPeak | public/walker.js:184-186 | replacing the remembered peak by the scratch vector keeps the tracker consistent exactly when the stance apex is at right angles to the axis |
| GaitTracking.ProgressOfShifted | public/walker.js:192-201 | a position read as relative and as absolute has the same t exactly when the stance apex is at right angles to the axis |
| GaitTracking.TurningBackComesBack | public/walker.js:191-205 | in the worked instance the update at (1,0) takes t from 2 to 1 and the vitality to 0.95 |
| GaitTracking.TurningBackSwitches | public/walker.js:233 | in the worked instance that update keeps the tracker alive and triggers the switch |
| GaitTracking.TurningBackLosesPeak | public/walker.js:233-241 | in the worked instance the switch as written stores the peak at (-1,0) and leaves an inconsistent tracker |
| GaitTracking.LosesPeakAt | public/walker.js:233-241 | any tracker stepping right from (0,0) with its peak at (2,0) that switches at (1,0) stores the peak at (-1,0) and becomes inconsistent |
| GaitTracking.DecayOf45 | public/walker.js:205 | 0.95^45 is under the vitality threshold 0.1 |
| GaitTracking.StandingStillFades | public/walker.js:208-222 | for a tracker standing at p (Inv holds, t is the progress of p and not under 95% of the peak, vitality is non-negative), an update at p reports nothing, takes at least 5% off the vitality and, if the tracker survives, keeps t, maxT, the peak position, both apices and the stepping foot |
| GaitTracking.StandingStillDies | public/walker.js:208-222 | for a tracker standing at p (Inv holds, t is the progress of p and not under 95% of the peak, vitality is non-negative), after n updates at p no events were reported and a surviving tracker's vitality is at most 0.95^n of what it was |
| GaitTracking.StandingStillDiesWithin45 | public/walker.js:208-222 | a tracker that stands at p (t is the progress of p and not under 95% of the peak) and has vitality at most 1, as right after seeding or a switch, is dead after 45 updates with the head kept at p; vitality above 1, which progress can bring, is not covered |
| GaitTracking.WalkingTracker.constructor | public/walker.js:165-167 | the constructor leaves a consistent tracker equal to `Reset` from the unset fields with the event's apices, position and foot |
| GaitTracking.WalkingTracker.ResetTo | public/walker.js:169-189 | `_reset` leaves the fields `Reset` describes |
| GaitTracking.WalkingTracker.Align | public/walker.js:169-182 | the first part of `_reset` takes apices and foot and derives axis, length and forward as `Aligned` says |
| GaitTracking.WalkingTracker.UpdateTAndVitality | public/walker.js:191-206 | `_updateTAndVitality` leaves the fields `Advance` describes |
| GaitTracking.WalkingTracker.TakePosition | public/walker.js:213-219 | taking a position leaves the fields `Peaked` describes |
| GaitTracking.WalkingTracker.SwitchIfTurnedBack | public/walker.js:233-241 | under 95% of the peak the fields become `Reseed`'s; otherwise nothing changes |
| GaitTracking.WalkingTracker.Update | public/walker.js:208-248 | update keeps the tracker consistent and returns the liveness flag and events of `Track` |
| GaitTracking.WalkingTracker.Forward | public/walker.js:254-256 | the forward getter is a unit vector at right angles to the axis, or zero for a zero axis |
| Locomotion.AccumulateIsScaledProgress | public/walker.js:271-273 | handling a run of events adds forward times 0.024 times their summed Δt to the displacement |
| Locomotion.Accumulate | public/walker.js:271-273 | footfalls alone leave the displacement as it was |
| Locomotion.Noticed | public/walker.js:279-282 | the detector takes the position; an existing tracker is kept, and the displacement is unchanged |
| Locomotion.Followed | public/walker.js:283-288 | the tracker half leaves the detector alone, changes nothing when there is no tracker, and never creates one |
| Locomotion.WalkerStep | public/walker.js:278-293 | a frame feeds the position to the detector, and the displacement kept for the next frame is 0.96 of the camera's move |
| Locomotion.ProgressedReported | public/walker.js:225-231 | the events of an update add up to t - priorT when t grew, else 0 |
| Locomotion.TrackProgress | public/walker.js:225-226 | the progress an update reports is exactly the gain in t of a live tracker |
| Locomotion.WalkerTrackerLifecycle | public/walker.js:265-288 | a step creates a tracker only when there is none; an existing tracker is kept while its update returns true and dropped otherwise |
| Locomotion.WalkerMovesAlongForward | public/walker.js:271-292 | the camera moves by the old displacement plus 0.024 times the non-negative gain along the tracker's forward direction, and the kept displacement is 0.96 of the one applied |
| Locomotion.Walker.constructor | public/walker.js:259-262 | a new walker has a fresh detector, no tracker and no displacement |
| Locomotion.Walker.OnFirstStep | public/walker.js:265-267 | the step handler seeds a new tracker only when there is none and leaves the displacement alone |
| Locomotion.Walker.OnTrackerEvents | public/walker.js:271-273 | the movement handler's loop leaves the displacement `Accumulate` gives |
| Locomotion.Walker.Notice | public/walker.js:279-282 | the detector half of update leaves the state `Noticed` describes and never replaces an existing tracker |
| Locomotion.Walker.Follow | public/walker.js:283-288 | the tracker half of update leaves the state `Followed` describes |
| Locomotion.Walker.Update | public/walker.js:278-293 | one frame leaves the walker and the camera as `WalkerStep` says |
| FixedUpdate.Fire | public/walker.js:305-309 | a frame fires ticks and carries the rest with `ticks·interval + rest = elapsed + delta` and the rest below one interval, not negative for a non-negative total |
| FixedUpdate.FireIsUnique | public/walker.js:305-309 | for a positive interval, any split of the elapsed time into fired intervals and a carried rest below one interval, with a non-negative rest whenever an interval fires, is `Fire`'s |
| FixedUpdate.CarryOver | public/walker.js:305-309 | when a span fired its whole intervals, the next frame starting from its carried time makes both spans together fire their whole intervals |
| FixedUpdate.RunFiresWholeIntervals | public/walker.js:305-309 | from a fresh start with a positive interval, any run of frames of non-negative length fires `floor(total / interval)` updates and carries the rest, however time is split into frames; frames of negative length are not covered |
| FixedUpdate.FixedUpdateProvider.constructor | public/walker.js:301-304 | the interval is 1000 / framerate, and updates fire only for a positive framerate |
| FixedUpdate.FixedUpdateProvider.Frame | public/walker.js:305-310 | the loop fires the updates and leaves the carried time as `Fire` says; with framerate 0 it only adds the frame time |
| Rooms.AddMember | server.js:31 | adding keeps everyone, makes the participant a member and never duplicates one |
| Rooms.RemoveMember | server.js:50 | removing drops exactly the participant, keeps every other member, never creates a duplicate and changes nothing for a stranger |
| Rooms.RemoveMemberKeepsOrder | server.js:50 | in a room without duplicates, removing the member at position i leaves exactly the members before it followed by the members after it, in join order |
| Rooms.Joined | server.js:28-31 | after a join the room exists with the participant in it and every other room is untouched; a table in which no room was empty or held a duplicate stays so |
| Rooms.Left | server.js:49-53 | after a leave the participant is gone, the room is deleted exactly when it had no one else, and every other room is untouched |
| Rooms.JoinIsIdempotent | server.js:28-31 | joining twice is joining once |
| Rooms.LeaveByStrangerIsNoop | server.js:49-53 | in a valid table, leaving an existing room one is not in changes nothing |
| Rooms.JoinThenLeave | server.js:22-56 | for a valid table and a participant who was not already in the room, joining the room and leaving it again restores the table |
| Rooms.RoomTable.constructor | server.js:7 | the server starts with an empty table |
| Rooms.RoomTable.Join | server.js:22-38 | join answers 200 with exactly the room's members after the add, and leaves the table as `Joined` says |
| Rooms.RoomTable.Leave | server.js:40-56 | leave answers 400 and changes nothing for an unknown room; otherwise it answers 200 and leaves the table as `Left` says |

## Left out

- Observables are not modelled. The step event and the tracker's Movement and Footfall events are returned by the methods. The "Footfall!" console message, and the disposal observers of the fixed-update provider (public/walker.js:311-314), are left out.
- Floating point is not modelled: all arithmetic is on exact reals. Math.sqrt is a parameter characterised by `IsSqrt`.
- Aliasing of Babylon Vector2 objects is not modelled: vectors are values. Two consequences follow:
  - `at()` hands out slots by value;
  - the stale-scratch-vector effect of the switch of feet is captured separately, by `ReseedAsWritten`.
- Vertical components are not modelled. Positions, the forward vector and the camera are their (x, z) components. The in-place `forward.y = 0` on the caller's vector is not modelled.
- A zero-length tracker axis makes the source compute NaN. The model takes t and the deviation to be 0 and forward to be zero. Either way such a tracker's update returns false with no events.
- FixedUpdate.FixedUpdateProvider.constructor requires a non-negative framerate. With a negative framerate the source's loop never ends. A framerate of 0 gives an infinite interval and never fires.
- scene.deltaTime and the camera are parameters, and the number of fixed updates fired is a result.
- SampleBuffer.CircleBuffer.Push on an empty buffer leaves the head unchanged. The source leaves a NaN index there before it throws.
- The lateral-deviation kill bound is not proved. That bound says a tracker that deviates by more than 0.004 every update dies within a bounded number of updates. Its progress bonus can offset the penalty, so only the standing-still bound is proved.
- Express routing, EJS views, randomWords, console.log and server.listen are not modelled. Neither is a request body without roomId or participantId; ids are plain strings.
- public/babylonExperience.js and public/meeting.js are not part of this model.

## Findings

| source | as written | input that shows it | evidently intended | confidence | as-written member | corrected member |
|---|---|---|---|---|---|---|
| public/walker.js:233-241 | the switch of feet hands `_reset` the tracker's own `_currentPosition`, which `_updateTAndVitality` (line 192-198) overwrites with the position relative to the new stance apex before `_reset` copies it into `_maxTPosition` (line 186), so the peak is remembered at a relative position | a tracker stepping right from (0,0) towards (1,0), with its peak at (2,0), that comes back to (1,0): the peak is stored at (-1,0) instead of (1,0), and maxT no longer matches the progress there | the peak is remembered at the absolute position of the switch, so maxT is the progress of maxTPosition | not executed | GaitTracking.TurningBackLosesPeak | GaitTracking.ReseedKeepsPeak |
