# Waterfall game scene — a verified model of its simulation and game state

`WaterfallGameSource` is one scene of a projection-mapping installation: an 800 x 480
render target showing four particle populations and a small button-driven game.

- **The generative field.** 75 particles drift over the right two thirds of the screen.
  Every update they are advanced, wrapped, sorted into a 20 x 20 bucket grid, and joined by
  a line wherever two of them are closer than 90 pixels.
- **The waterfall.** 50 droplets are pushed right across the left third of the screen, held
  between the channel walls `y = 160` and `y = 320`, and sent back to the left when they
  pass the band's edge. Of the two lifespan zones only the second ages them: at 800 pixels
  the first zone, `(200, 166)`, is empty (`Waterfall.FirstZoneEmpty`).
- **The atoms.** Five atoms shy away from the attractor while the game is idle. While it is
  shocked they are pulled in, and caught within 100 pixels. Each catch counts, and ten end
  the game.
- **The island rings.** The attractor the atoms react to: a point that drifts with noise
  inside an inset box, with a ring phase that turns by 3 every update.
- **The controller.** `update` runs all of this and applies the three-minute timeout. It
  reads the button from a GPIO pin: a press either switches the shock on, when both colour
  timers are red, or replays an ended game. `draw` also advances the two five-window colour
  timers that set those red flags.

The model is split into modules that follow this structure:

- `Scene` and `Geometry`: the fixed screen constants, and exact-real vectors with C
  truncation, `fmodf`, clamps and edge bounces.
- `Sequences`: counting and flattening helpers.
- `SpatialGrid`: the cell index, the buckets and the scan windows.
- `LineGraph` and `LineMesh`: which segments an emission pass produces, and the mesh
  the loops build from them.
- `GenField`: the field object, as a class over an array of particles and a 2-D array of
  buckets.
- `Waterfall`, `Atoms` and `Attractor`: the per-element update rules, as functions.
- `PhaseTimer`: the colour windows.
- `Controller`: the scene object as a class. Its methods are proved to follow the
  value-level rules `Play`, `Button`, `Tick` and `Timers`.

Five behaviours of the code are easy to misread, and the model keeps them as written:

- The x-wrap does not keep a field particle inside `[0, screenWidth)`: a particle can end
  up to 266 pixels past the right edge (`GenField.RightEdgeNotWrapped`), where the clamp
  files it into the last column (`GenField.OffScreenParticleClamped`).
- The shock's 3000 ms are counted from the last reset or timeout, not from the button press
  that switches the shock on, because line 173 leaves `shockSavedTime` alone. The test runs
  inside the atom loop, so a stale shock acts on the first atom only
  (`Atoms.StaleShockEndsAtFirstAtom`).
- A `"1"` replays an ended game only when it does not switch the shock on instead: with
  both flags red, the first five presses in a row shock and the sixth replays
  (`Controller.ReplayButton`).
- The game ends at ten catches with a pool of five atoms. A caught atom is dead and parked
  near x = 80000 (`Atoms.AtomCapture`), and only a reset revives it. So the end of the game,
  and the replay after it, need atoms caught a second time after drifting back from there.
- The scan windows are half open and clamped to `[0, 19]`, so the last row and column are
  never scanned. Two particles one pixel apart in column 19 are never joined
  (`LineGraph.LastColumnNeverLinked`, `LineGraph.CloseParticlesMissed`).

## Model

| member | source | states |
|---|---|---|
| `Scene.SetupDerivation` | projectionSceneManager/src/WaterfallGameSource.cpp:17-22 | offset 200, band width 266, channel top 160 and field centre 600 are the truncated screen fractions `setup` assigns |
| `Geometry.Trunc` | projectionSceneManager/src/WaterfallGameSource.cpp:220-221 | a float-to-int conversion truncates toward zero: `n <= r < n + 1` for `r >= 0`, `n - 1 < r <= n` below zero |
| `Geometry.FMod` | projectionSceneManager/src/WaterfallGameSource.cpp:197-201 | `fmodf` by a positive modulus keeps the dividend's sign, stays below the modulus in size, and is the identity on `[0, b)` |
| `Geometry.Clamp` | projectionSceneManager/src/WaterfallGameSource.cpp:223-227 | result in `[lo, hi]`: the value itself inside, `lo` below, `hi` above |
| `Geometry.Bounce` | projectionSceneManager/src/WaterfallGameSource.cpp:411-425 | an active edge test leaves the coordinate in `[lo, hi]`; an inactive one, or one already inside, changes nothing; the velocity component is kept or reversed |
| `SpatialGrid.GridSizing` | projectionSceneManager/src/WaterfallGameSource.cpp:245-250 | 8100 is 90 squared, and the reaches 3 and 4 are the ceilings of 90 over the 40 x 24 cell, which is the screen divided by the resolution |
| `SpatialGrid.CellIndex` | projectionSceneManager/src/WaterfallGameSource.cpp:220-227 | the clamped cell index lies in `[0, res)`, and for an on-grid coordinate its cell interval contains the coordinate |
| `SpatialGrid.TruncMatchesFloorUnderClamp` | projectionSceneManager/src/WaterfallGameSource.cpp:220-227 | after the clamp, truncation and flooring give the same cell |
| `SpatialGrid.Indexed` | projectionSceneManager/src/WaterfallGameSource.cpp:229-230 | recomputing the cache keeps position, velocity and identity, and stores the in-grid cell of the current position |
| `SpatialGrid.Bucket` | projectionSceneManager/src/WaterfallGameSource.cpp:232 | every member of a rebuilt bucket is a pool index whose particle is cached in that cell |
| `SpatialGrid.BucketUpToMembers` | projectionSceneManager/src/WaterfallGameSource.cpp:216-233 | after `n` insertions a bucket holds only indices below `n` of particles cached in its cell |
| `SpatialGrid.BucketUpToAgree` | projectionSceneManager/src/WaterfallGameSource.cpp:216-233 | a bucket depends only on the particles inserted so far |
| `SpatialGrid.BucketUpToCount` | projectionSceneManager/src/WaterfallGameSource.cpp:216-233 | every inserted index occurs exactly once in the bucket of its cell and in no other |
| `SpatialGrid.BucketCount` | projectionSceneManager/src/WaterfallGameSource.cpp:207-233 | after the rebuild each particle appears exactly once, in the bucket at its cached cell, so the buckets together hold the pool |
| `SpatialGrid.BucketMember` | projectionSceneManager/src/WaterfallGameSource.cpp:207-233 | an index is in a bucket iff its particle is cached there, and never twice |
| `SpatialGrid.WindowSpan` | projectionSceneManager/src/WaterfallGameSource.cpp:258-268 | both window bounds are clamped into `[0, res - 1]` |
| `SpatialGrid.WindowSpanMembers` | projectionSceneManager/src/WaterfallGameSource.cpp:258-272 | a cell is scanned iff it is within the reach below, strictly within it above, and not the last one |
| `SpatialGrid.OwnCellScanned` | projectionSceneManager/src/WaterfallGameSource.cpp:270-272 | a particle scans its own column (row) iff that is not the last |
| `SpatialGrid.CellsWithinReach` | projectionSceneManager/src/WaterfallGameSource.cpp:249-250 | coordinates closer than the radius fall into cells at most `ceil(radius / size)` apart |
| `LineGraph.BucketSegmentsCount` | projectionSceneManager/src/WaterfallGameSource.cpp:274-295 | scanning one bucket emits `(i, j)` once for each time `j` is in it, if the pair connects, and otherwise never |
| `LineGraph.RowSegmentsCount` | projectionSceneManager/src/WaterfallGameSource.cpp:272-296 | a row of buckets emits `(i, j)` once iff `j` connects and is cached in one of its scanned columns |
| `LineGraph.WindowSegmentsCount` | projectionSceneManager/src/WaterfallGameSource.cpp:270-297 | the same over the window's scanned rows and columns |
| `LineGraph.ParticleSegmentsCount` | projectionSceneManager/src/WaterfallGameSource.cpp:254-297 | the scan of particle `i` emits every linked segment from `i` exactly once, and nothing else |
| `LineGraph.SegmentsCount` | projectionSceneManager/src/WaterfallGameSource.cpp:252-298 | the emitted multiset holds each linked ordered pair exactly once and nothing else |
| `LineGraph.SegmentsOccurrences` | projectionSceneManager/src/WaterfallGameSource.cpp:252-298 | the same count over the emission sequence of the first `n` particles |
| `LineGraph.SegmentsWithinPool` | projectionSceneManager/src/WaterfallGameSource.cpp:252-298 | every emitted segment joins two pool particles |
| `LineGraph.SegmentsMember` | projectionSceneManager/src/WaterfallGameSource.cpp:252-298 | a segment is emitted iff the pair lies in the scan window, has different identities and is closer than 90 |
| `LineGraph.BothDirectionsEmitted` | projectionSceneManager/src/WaterfallGameSource.cpp:277-291 | there is no de-duplication: a pair linked both ways is drawn from both ends |
| `LineGraph.LastColumnNeverLinked` | projectionSceneManager/src/WaterfallGameSource.cpp:261-272 | two particles cached in column 19 are never joined |
| `LineGraph.LastRowNeverLinked` | projectionSceneManager/src/WaterfallGameSource.cpp:267-270 | two particles cached in row 19 are never joined |
| `LineGraph.CloseParticlesMissed` | projectionSceneManager/src/WaterfallGameSource.cpp:270-280 | two particles one pixel apart at x 790 pass the distance test, yet neither direction is emitted |
| `LineGraph.CloseParticlesIndexed` | projectionSceneManager/src/WaterfallGameSource.cpp:220-230 | those two particles carry the cells of their own positions, so the miss happens after an honest rebuild |
| `LineGraph.NearPairInClosedWindow` | projectionSceneManager/src/WaterfallGameSource.cpp:249-268 | the reach is wide enough: a particle closer than 90 lies in the closed window around the scanning particle's cell |
| `LineGraph.NearPairEmittedOffWindowEnd` | projectionSceneManager/src/WaterfallGameSource.cpp:249-291 | so a close pair whose cell is not on a window's high end is always emitted |
| `LineGraph.MeshVertices` | projectionSceneManager/src/WaterfallGameSource.cpp:284-287 | the mesh has exactly two vertices per emitted segment |
| `LineGraph.MeshVerticesAt` | projectionSceneManager/src/WaterfallGameSource.cpp:284-287 | segment `k` contributes vertex `2k` at its start particle and `2k + 1` at its end particle |
| `LineGraph.MeshVerticesAppend` | projectionSceneManager/src/WaterfallGameSource.cpp:284-287 | appending segments appends their vertices |
| `LineGraph.SegmentsStep` | projectionSceneManager/src/WaterfallGameSource.cpp:252-298 | the emission grows particle by particle in pool order |
| `LineGraph.MeshPair` | projectionSceneManager/src/WaterfallGameSource.cpp:284-287 | one segment adds its two particles' positions |
| `LineMesh.BucketVerticesMesh` | projectionSceneManager/src/WaterfallGameSource.cpp:274-295 | the bucket loop's vertices are the mesh of that bucket's segments |
| `LineMesh.RowVerticesMesh` | projectionSceneManager/src/WaterfallGameSource.cpp:272-296 | the column loop's vertices are the mesh of that row's segments |
| `LineMesh.WindowVerticesMesh` | projectionSceneManager/src/WaterfallGameSource.cpp:270-297 | the row loop's vertices are the mesh of the window's segments |
| `LineMesh.ParticleVerticesMesh` | projectionSceneManager/src/WaterfallGameSource.cpp:254-297 | one particle's scan lays down the mesh of its segments |
| `LineMesh.PassVerticesMesh` | projectionSceneManager/src/WaterfallGameSource.cpp:252-298 | a complete pass lays down the endpoints of the emitted segments, in emission order |
| `GenField.WrapX` | projectionSceneManager/src/WaterfallGameSource.cpp:197-199 | the x-wrap lands in `(0, screenWidth + bandWidth)`, right of the band for non-negative input, and keeps an on-field position |
| `GenField.WrapY` | projectionSceneManager/src/WaterfallGameSource.cpp:201-203 | the y-wrap lands in `[0, screenHeight)` and keeps an on-screen position |
| `GenField.Advance` | projectionSceneManager/src/WaterfallGameSource.cpp:195-203 | a step moves by `vel * dt` and wraps, keeps velocity, identity and cache, and stays in the field |
| `GenField.RightEdgeNotWrapped` | projectionSceneManager/src/WaterfallGameSource.cpp:197-199 | a particle at x 801 stays at 801, past the screen's right edge |
| `GenField.OffScreenParticleClamped` | projectionSceneManager/src/WaterfallGameSource.cpp:220-224 | such a particle is filed into the last column by the clamp |
| `GenField.AddLine` | projectionSceneManager/src/WaterfallGameSource.cpp:284-291 | two vertices are appended, and the index buffer goes on numbering vertices `0, 1, 2, ...` |
| `GenField.EmitBucket` | projectionSceneManager/src/WaterfallGameSource.cpp:274-295 | the bucket loop appends the bucket's vertex pairs and keeps the numbering |
| `GenField.EmitRow` | projectionSceneManager/src/WaterfallGameSource.cpp:272-296 | the column loop appends the row's vertex pairs |
| `GenField.ScanBounds` | projectionSceneManager/src/WaterfallGameSource.cpp:258-268 | the four clamped bounds are the scan windows of the particle's cached cell |
| `GenField.EmitParticle` | projectionSceneManager/src/WaterfallGameSource.cpp:254-297 | one particle's scan appends its vertex pairs |
| `GenField.EmitPass` | projectionSceneManager/src/WaterfallGameSource.cpp:239-298 | the whole pass yields the mesh of exactly the linked segments, with its index buffer |
| `GenField.CellOf` | projectionSceneManager/src/WaterfallGameSource.cpp:220-230 | the computed pair of indices is the clamped cell `Indexed` stores |
| `GenField.BucketsInsert` | projectionSceneManager/src/WaterfallGameSource.cpp:216-233 | filing one more particle extends exactly its own cell's bucket |
| `GenField.Field.constructor` | projectionSceneManager/src/WaterfallGameSource.cpp:68-105 | 75 particles with identities `0..74`, cache at cell `(0, 0)`, an empty 20 x 20 grid and the start time recorded |
| `GenField.Field.Integrate` | projectionSceneManager/src/WaterfallGameSource.cpp:186-204 | the time step is the time since the last update, and every particle is advanced by it |
| `GenField.Field.ClearGrid` | projectionSceneManager/src/WaterfallGameSource.cpp:207-213 | every bucket is emptied |
| `GenField.Field.FileParticle` | projectionSceneManager/src/WaterfallGameSource.cpp:218-232 | one particle gets its new cell and is appended to that bucket alone |
| `GenField.Field.InsertAll` | projectionSceneManager/src/WaterfallGameSource.cpp:216-233 | from an empty grid every particle is re-indexed and the grid holds exactly the pool's buckets |
| `GenField.Field.RebuildGrid` | projectionSceneManager/src/WaterfallGameSource.cpp:207-233 | after the rebuild every cache is recomputed and every bucket holds exactly its particles |
| `GenField.Field.EmitLines` | projectionSceneManager/src/WaterfallGameSource.cpp:239-298 | the stored mesh is the vertices of exactly the linked segments, with matching indices; particles and grid are unchanged |
| `GenField.Field.Refresh` | projectionSceneManager/src/WaterfallGameSource.cpp:186-233 | the clocks at `now`, the particles advanced by the time since the last update and re-indexed, and the grid rebuilt from them |
| `GenField.Field.Update` | projectionSceneManager/src/WaterfallGameSource.cpp:185-299 | `updateGenField`: the clocks at `now`, the particles advanced by the measured step and re-indexed, the grid rebuilt, and the mesh of the new positions stored |
| `Waterfall.Push` | projectionSceneManager/src/WaterfallGameSource.cpp:306-312 | the force step keeps position, lifespan and scale |
| `Waterfall.DropsStep` | projectionSceneManager/src/WaterfallGameSource.cpp:302-351 | the update keeps the pool's size |
| `Waterfall.DropsStepPool` | projectionSceneManager/src/WaterfallGameSource.cpp:302-351 | every droplet of the pool keeps its scale, ends in the channel `[160, 320]` when left of x 266, and has lifespan 100 iff recycled, less 8 iff it ends in the second zone |
| `Waterfall.FirstZoneEmpty` | projectionSceneManager/src/WaterfallGameSource.cpp:341 | the first lifespan zone `(200, 166)` is empty on this screen |
| `Waterfall.DropLifespan` | projectionSceneManager/src/WaterfallGameSource.cpp:315-350 | lifespan resets to 100 iff recycled, then loses 8 iff the droplet ends in the second zone |
| `Waterfall.DropLifespanBound` | projectionSceneManager/src/WaterfallGameSource.cpp:315-350 | a lifespan never grows past the larger of its old value and 100 |
| `Waterfall.DropAdvances` | projectionSceneManager/src/WaterfallGameSource.cpp:315-322 | x moves by the new velocity, less `waterFallAreaX + 20` (286) when recycled; nothing else moves it sideways |
| `Waterfall.DropInChannel` | projectionSceneManager/src/WaterfallGameSource.cpp:325-340 | left of the band's edge a droplet ends in the channel `[160, 320]`; between one and two band widths it ends on the screen |
| `Waterfall.DropScaleKept` | projectionSceneManager/src/WaterfallGameSource.cpp:302-351 | an update never changes a droplet's scale |
| `Waterfall.NewDrop` | projectionSceneManager/src/WaterfallGameSource.cpp:108-114 | a new droplet has no horizontal speed, drag 0, lifespan 150 and no force |
| `Waterfall.FirstUpdateForgetsVelocity` | projectionSceneManager/src/WaterfallGameSource.cpp:309-310 | because of that drag, the first update discards the initial vertical velocity |
| `Atoms.AtomsPass` | projectionSceneManager/src/WaterfallGameSource.cpp:355-426 | the pass keeps the pool's size |
| `Atoms.AtomsPassUntouched` | projectionSceneManager/src/WaterfallGameSource.cpp:355 | the atoms not yet reached by the loop are unchanged |
| `Atoms.PassStepAt` | projectionSceneManager/src/WaterfallGameSource.cpp:355-357 | atom `k` is stepped under the round state left by the atoms before it |
| `Atoms.AtomCapture` | projectionSceneManager/src/WaterfallGameSource.cpp:386-391 | the counter rises by exactly one iff the atom is caught; a caught atom is dead and parked at `screenWidth * 100` plus its pull velocity |
| `Atoms.CaptureByDistance` | projectionSceneManager/src/WaterfallGameSource.cpp:382-386 | with `dist` the true length, capture is a shocked atom closer than 100 |
| `Atoms.AtomEndGame` | projectionSceneManager/src/WaterfallGameSource.cpp:392-394 | a shocked step ends the game iff it leaves the counter at exactly 10; an ended game stays ended |
| `Atoms.AtomShockTimeout` | projectionSceneManager/src/WaterfallGameSource.cpp:396-401 | a shocked step more than 3000 ms after the last restart goes idle and restarts the clock at `now`; otherwise both are unchanged |
| `Atoms.AtomStaysOnScreen` | projectionSceneManager/src/WaterfallGameSource.cpp:411-425 | a live atom ends in `[266, 800 - 20s] x [20s, 480 - 20s]` |
| `Atoms.DeadAtomDrifts` | projectionSceneManager/src/WaterfallGameSource.cpp:406-425 | a dead atom not caught again moves only by its velocity |
| `Atoms.AtomKeepsShape` | projectionSceneManager/src/WaterfallGameSource.cpp:357 | scale, drag, speed and seed are kept, and the phase advances by the speed |
| `Atoms.PassCaughtBounds` | projectionSceneManager/src/WaterfallGameSource.cpp:386-391 | over a pass the counter never falls and rises by at most one per atom |
| `Atoms.PassEndGameSticky` | projectionSceneManager/src/WaterfallGameSource.cpp:392-394 | once set, the end flag stays set for the rest of the pass |
| `Atoms.PassReachesGoal` | projectionSceneManager/src/WaterfallGameSource.cpp:390-394 | a pass that takes the counter from below 10 to 10 or more ends the game |
| `Atoms.PassEndGameCause` | projectionSceneManager/src/WaterfallGameSource.cpp:392-394 | a pass ends the game only with the counter at 10 or more |
| `Atoms.PassStaysIdle` | projectionSceneManager/src/WaterfallGameSource.cpp:358-401 | after a timeout every later atom of the pass takes the idle branch |
| `Atoms.StaleShockEndsAtFirstAtom` | projectionSceneManager/src/WaterfallGameSource.cpp:396-401 | a shock switched on more than 3000 ms after the last restart acts on the first atom only |
| `Atoms.PassLiveOnScreen` | projectionSceneManager/src/WaterfallGameSource.cpp:406-425 | after a pass every live atom is inside its margin box, and its scale is unchanged |
| `Attractor.SetupRings` | projectionSceneManager/src/WaterfallGameSource.cpp:138-146 | the attractor starts in its box, with phase 0, drag 1 and the drawn velocity |
| `Attractor.RingsInBox` | projectionSceneManager/src/WaterfallGameSource.cpp:428-454 | every update ends in the box, turns the rings by 3, records the noise force and keeps the drag |
| `Attractor.BoxBounds` | projectionSceneManager/src/WaterfallGameSource.cpp:439-453 | the box is `[302, 764] x [36, 444]` |
| `Attractor.RingsSpeedKept` | projectionSceneManager/src/WaterfallGameSource.cpp:431-453 | a bounce only reflects: each velocity component keeps the size it had after the noise push |
| `Attractor.RingsFreeMove` | projectionSceneManager/src/WaterfallGameSource.cpp:431-435 | away from the edges the attractor simply moves by its new velocity |
| `Attractor.RingsRunPhase` | projectionSceneManager/src/WaterfallGameSource.cpp:429 | after `k` updates the phase has grown by `3k` and the attractor is in the box |
| `PhaseTimer.ThresholdsOrdered` | projectionSceneManager/src/WaterfallGameSource.cpp:529-533 | the drawn atom windows and the fixed ring windows are strictly increasing |
| `PhaseTimer.WindowIntervals` | projectionSceneManager/src/WaterfallGameSource.cpp:535-553 | the `if` chain selects windows one, four and five, or none, exactly on their intervals |
| `PhaseTimer.WindowMonotone` | projectionSceneManager/src/WaterfallGameSource.cpp:535-553 | for fixed windows, a later elapsed time never selects an earlier window |
| `PhaseTimer.TimerEffects` | projectionSceneManager/src/WaterfallGameSource.cpp:535-553 | the flag is cleared in window one, set in window four and touched nowhere else; the start moves only in window five, to `now` |
| `PhaseTimer.TimerStuck` | projectionSceneManager/src/WaterfallGameSource.cpp:566-584 | once elapsed time reaches the fifth end, no later frame changes the timer |
| `PhaseTimer.AtomTimerStuck` | projectionSceneManager/src/WaterfallGameSource.cpp:529-553 | the atom timer is stuck after 6000 ms, whatever the draws |
| `PhaseTimer.RestartClears` | projectionSceneManager/src/WaterfallGameSource.cpp:535-553 | a restart in window five is followed, within `t1`, by a cleared flag |
| `PhaseTimer.FlagsOutOfStep` | projectionSceneManager/src/WaterfallGameSource.cpp:528-584 | at 4700 ms the ring timer is red-setting while the atom timer is past its fourth window |
| `Controller.ReviveAll` | projectionSceneManager/src/WaterfallGameSource.cpp:54-64 | the pool keeps its size |
| `Controller.AtomsPlayed` | projectionSceneManager/src/WaterfallGameSource.cpp:157 | the atom pass leaves the attractor alone and keeps the pool size |
| `Controller.Played` | projectionSceneManager/src/WaterfallGameSource.cpp:155-158 | the game part of a frame keeps the pool size |
| `Controller.RestartStartsGame` | projectionSceneManager/src/WaterfallGameSource.cpp:35-65 | a reset clears counters and flags, restarts every clock, re-centres the attractor at phase 0, revives atoms otherwise unchanged, and places them on the field side |
| `Controller.EndedGameFrozen` | projectionSceneManager/src/WaterfallGameSource.cpp:155-167 | while ended, the atoms, the attractor and the game state are untouched |
| `Controller.PlayCaught` | projectionSceneManager/src/WaterfallGameSource.cpp:155-163 | without a timeout the counter rises by at most one per atom; with one it is 0 and the game clock is `now` |
| `Controller.OneCatchNeverTimesOut` | projectionSceneManager/src/WaterfallGameSource.cpp:160 | a game with at most one catch never times out |
| `Controller.PlayEndsGame` | projectionSceneManager/src/WaterfallGameSource.cpp:155-158 | a frame ends the game only at 10 or more catches, and a frame reaching 10 from below ends it |
| `Controller.ButtonShock` | projectionSceneManager/src/WaterfallGameSource.cpp:170-173 | the shock is switched on iff the pin reads `"1"`, both flags are red and this is one of the first five hits |
| `Controller.ShockKeepsClock` | projectionSceneManager/src/WaterfallGameSource.cpp:170-173 | switching the shock on changes only the hit count and the state, not the shock clock |
| `Controller.ReplayButton` | projectionSceneManager/src/WaterfallGameSource.cpp:170-176 | an ended game is replayed by a `"1"` iff that press does not switch the shock on |
| `Controller.RunningButton` | projectionSceneManager/src/WaterfallGameSource.cpp:170-176 | on a running game a `"1"` that does not shock only counts the hit: the button never resets a game that has not ended |
| `Controller.TickCaughtFallsOnlyByReset` | projectionSceneManager/src/WaterfallGameSource.cpp:155-179 | within a frame the catch count falls only through `gameReset`: a lower count comes with every reset field and the re-centred attractor |
| `Controller.QuietButton` | projectionSceneManager/src/WaterfallGameSource.cpp:169-179 | `"0"` clears the hit count, anything else but `"1"` changes nothing |
| `Controller.AtMostOneReset` | projectionSceneManager/src/WaterfallGameSource.cpp:160-176 | after a timeout reset the button cannot reset again in the same frame |
| `Controller.RingTimerFrozen` | projectionSceneManager/src/WaterfallGameSource.cpp:473-474 | while ended the ring timer is frozen and the atom timer runs on |
| `Controller.EndedRedGameShocks` | projectionSceneManager/src/WaterfallGameSource.cpp:170-174 | an ended game with a red ring flag, in the atom timer's fourth window, is shocked by a `"1"` instead of replayed |
| `Controller.NewAtom` | projectionSceneManager/src/WaterfallGameSource.cpp:121-131 | a new atom has its drawn scale, phase 0 and no force |
| `Controller.WaterfallGame.constructor` | projectionSceneManager/src/WaterfallGameSource.cpp:7-31 | `setup`: 75 particles at their spawn draws with identities `0..74` and cache `(0, 0)`, an empty grid and mesh, the field clock started, the 50 new droplets, and the five new atoms after a reset |
| `Controller.WaterfallGame.GameReset` | projectionSceneManager/src/WaterfallGameSource.cpp:35-65 | the new state is `Restart` of the old atoms: control cleared, rings set up, atoms revived |
| `Controller.WaterfallGame.ResetControl` | projectionSceneManager/src/WaterfallGameSource.cpp:39-50 | every flag and counter cleared and every clock at `now` |
| `Controller.WaterfallGame.ResetRings` | projectionSceneManager/src/WaterfallGameSource.cpp:138-146 | the attractor fields hold `SetupRings` of the drawn velocity |
| `Controller.WaterfallGame.ReviveAtoms` | projectionSceneManager/src/WaterfallGameSource.cpp:54-64 | every atom revived at its drawn position and velocity |
| `Controller.WaterfallGame.UpdateWaterfall` | projectionSceneManager/src/WaterfallGameSource.cpp:300-351 | the droplets are `DropsStep` of the old ones |
| `Controller.WaterfallGame.UpdateAtoms` | projectionSceneManager/src/WaterfallGameSource.cpp:353-427 | given each atom's true distance to the attractor, the atoms and round fields are the whole pass, carried in the fields, and scales stay in `[0.5, 1]` |
| `Controller.WaterfallGame.StepAtom` | projectionSceneManager/src/WaterfallGameSource.cpp:356-425 | one atom and the round fields take that atom's step |
| `Controller.WaterfallGame.UpdateIslandRings` | projectionSceneManager/src/WaterfallGameSource.cpp:428-454 | the attractor fields take one `RingsStep`, the game fields are unchanged |
| `Controller.WaterfallGame.UpdateGame` | projectionSceneManager/src/WaterfallGameSource.cpp:150-167 | the game state after the frame's game part is `Play` of the old one |
| `Controller.WaterfallGame.ReadButton` | projectionSceneManager/src/WaterfallGameSource.cpp:168-179 | the game state after the button read is `Button` of the old one |
| `Controller.WaterfallGame.Step` | projectionSceneManager/src/WaterfallGameSource.cpp:150-179 | game part, then button: the state is `Tick` of the old one |
| `Controller.WaterfallGame.Update` | projectionSceneManager/src/WaterfallGameSource.cpp:149-182 | `update`: the field advanced, partitioned and meshed, the droplets stepped, and the game state `Tick` of the old one |
| `Controller.WaterfallGame.DrawTimers` | projectionSceneManager/src/WaterfallGameSource.cpp:528-584 | the flags and start times are `Timers` of the old ones: the atom timer always, the ring timer only while the game is on |

## Left out

- Drawing is left out: `draw`, `drawGenField`, `drawWaterfall`, the colours the timers pick, the `water` tint, `atom()` and `ring()`, and the line alpha `1 - length / 90` of line 282, which needs a square root. The mesh colours are left out too; the model keeps its vertices and indices.
- The mesh is built as a value during the pass and stored once the pass is complete. The source appends to `lineMesh` as it goes, and nothing reads the mesh in between. `lineMesh` as a GPU object is not modelled.
- The grid holds pool indices, not `Particle*` pointers. No two entries of the particle pool alias.
- The GPIO driver (lines 13-15, 169) becomes the `Signal` input: `"1"`, `"0"` or anything else.
- `usleep`, `ofSetVerticalSync`, `ofSetCircleResolution`, `allocate` and `setName` are host plumbing and are left out.
- `ofSignedNoise` and `ofRandom` are inputs: `DropNoise`, `AtomInput`, the ring noise vector, `ResetDraws`, `AtomDraw`, `DropDraw`, the spawn draws and the atom timer windows. Their ranges are stated as closed intervals, a superset of `ofRandom`'s half-open ones.
- `setupGenField`'s `cosf`/`sinf` velocity is the requirement that every velocity has squared length 400.
- Of `setupAtoms`' draws only the scale range `[0.5, 1]` is used by the proofs. Drag, speed and seed are taken as given.
- Floats are exact reals, so `fmodf`, `ceil` and every product are idealised. The integer conversions and clamps are modelled exactly.
- The atom distance `frc.length()` is an input `dist`, because the model has no square root. The scene's methods require it to be the true length (`DistancesFit`), and `Atoms.CaptureByDistance` shows that the capture test is then a distance test.
- The millisecond clock is read once per frame (`now`). The source reads it separately at every comparison, and the field's seconds are `now / 1000`. The saved times, which the header stores as `float`, are integers.
- `shockTotalTime` and `gameTotalTime` are constants. Every reset assigns them the same values.
- `isDead` is a flag; the source's float only ever holds 0 or 1.
- The `attractPoints` members of the header are unused and left out.
- `Controller.Tick` takes one set of reset draws per frame. `Controller.AtMostOneReset` shows a frame resets at most once.
- A reset leaves the particle and droplet pools alone; they run on across rounds.
