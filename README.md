# Confetti particle engine

This project models the particle lifecycle of a confetti effect written in Kotlin for Android, in `MainActivity.kt`. It covers four parts:

- **Particle records (`MutableParticle`).** A record holds sixteen attributes and an `alive` flag.
- **`ParticlePool`.** A last-in, first-out free list of dead records. It keeps at most 1000 of them and drops any record recycled beyond that.
- **`ConfettiEngine`.** The engine owns the ordered live list, the pool, the screen height and a frame counter.
  - `addBurst` spawns a random number of particles at a point.
  - `update` moves every live particle through one frame. It retires the ones that fell more than 100 units below the screen into the pool, compacts the survivors to the front of the list in their order, trims the tail and ticks the frame counter.
  - `hasParticles` reports whether the live list is non-empty.
- **The pure rules.** These are:
  - the time-step clamp, with `MAX_DT` = 0.025 s;
  - gravity, with `GRAVITY` = 450, up to `TERMINAL_VELOCITY` = 280;
  - the horizontal squash `scaleX = clamp(|sin(flipPhase)|, 0.15, 1)` used when drawing.

The model is organised as follows:

- **Records live in an arena.** `Particles.Arena` holds records in a sequence of slots. A reference to a `MutableParticle` object is a `Handle`, the index of its slot. Allocating an object appends a slot. Two references to the same object are two copies of the same handle.
- **Collections are handles.** The pool's `ArrayDeque` and the engine's `ArrayList` become `seq<Handle>` fields that the methods reassign, with the top of the pool last.
- **The engine's invariant.** `ConfettiEngine.Valid()` says every handle addresses a record, and no record is held twice, either within or across the live list and the pool. `Partitioned()` says live records are alive and pooled ones are dead. Every operation keeps `Valid()`. `AddBurst` and `Update` also keep `Partitioned()`.
- **Pure specifications.** Each method is specified by total functions of the old state:
  - `Select` picks out, in order, the handles whose record has a given fate in a frame: skipped when dead, retires, or survives;
  - `Stepped` gives the records after the frame;
  - `Push` gives the pool after one recycle, and `RecycleAll` after a batch of recycles;
  - `ObtainOrder` gives the handles that a run of obtains hands out;
  - `Frame` and `Frames` give the live list, records and pool after one update and after a run of updates.
- **Floating-point values are exact reals.** The transcendental functions are parameters: `exp` (drag), `sin` (wobble and flip) and `cos` (burst angle). Every `Random` call in a burst is a nondeterministic choice, bounded to the range of the source's draw.

The source's `addBurst` requires a non-empty count range, because `Random.nextInt(first, last + 1)` throws otherwise. Every caller passes a non-empty range: 60..90 by default, 40..60 and 150..200. So `AddBurst` requires `first <= last`. A negative count, which `repeat` runs zero times, spawns nothing.

## Model

| member | source | states |
|---|---|---|
| Particles.FrameDt | app/src/main/java/com/example/myandroidconfettiapp/MainActivity.kt:218 | the time step is the elapsed nanoseconds in seconds capped at MAX_DT = 0.025: never above 0.025, never above the elapsed time, equal to one of the two, non-negative for a non-negative delay |
| Particles.FallSpeed | app/src/main/java/com/example/myandroidconfettiapp/MainActivity.kt:232-234 | below terminal velocity 280 the fall speed gains 450·dt but does not pass 280; at or above it the speed is unchanged; with dt ≥ 0 the speed never decreases |
| Particles.Advance | app/src/main/java/com/example/myandroidconfettiapp/MainActivity.kt:227-246 | one integration step: drag scales vx by exp(−drag·dt), gravity sets vy, the wobble phase advances and the wobble offset uses the new phase, x and y move by the new velocities, rotation and flip phase advance; every other attribute is unchanged |
| Particles.DragDecays | app/src/main/java/com/example/myandroidconfettiapp/MainActivity.kt:228-229 | with a decay factor in [0, 1] drag never increases the horizontal speed and never reverses its sign |
| Particles.FateOf | app/src/main/java/com/example/myandroidconfettiapp/MainActivity.kt:225-258 | a dead record is skipped; a live one retires exactly when its stepped y is below the bottom line, and survives otherwise |
| Particles.Next | app/src/main/java/com/example/myandroidconfettiapp/MainActivity.kt:224-251 | after a frame a dead record is untouched, a live one carries the stepped attributes, and it is alive exactly when it survives |
| Particles.ScaleX | app/src/main/java/com/example/myandroidconfettiapp/MainActivity.kt:277-278 | the squash lies in [0.15, 1], equals the absolute flip value when that is in range, and is clamped to the nearer bound otherwise |
| Particles.Allocated | app/src/main/java/com/example/myandroidconfettiapp/MainActivity.kt:149-153 | k allocations after lo records give the handles lo, lo + 1, …, lo + k − 1 |
| Particles.Arena.New | app/src/main/java/com/example/myandroidconfettiapp/MainActivity.kt:149-153 | a new object is a new slot after all existing ones, live and holding the given attributes; the other slots are unchanged |
| Pool.ParticlePool.constructor | app/src/main/java/com/example/myandroidconfettiapp/MainActivity.kt:117-118 | a new pool is empty |
| Pool.ParticlePool.Obtain | app/src/main/java/com/example/myandroidconfettiapp/MainActivity.kt:120-155 | on a non-empty pool: returns the most recently pooled record, overwritten with the given attributes and alive, and pops it; on an empty pool: allocates a new live record and the pool stays empty; the pool stays within capacity |
| Pool.ParticlePool.Recycle | app/src/main/java/com/example/myandroidconfettiapp/MainActivity.kt:157-162 | the record is marked dead with its attributes unchanged; it is pushed on top when the pool holds fewer than 1000, and dropped otherwise; the pool never exceeds 1000 |
| Pool.Push | app/src/main/java/com/example/myandroidconfettiapp/MainActivity.kt:157-162 | one recycle keeps the pool's records in order as a prefix and adds the record on top exactly when the pool is below 1000, so a pool within capacity stays within it |
| Pool.RecycleAllSnoc | app/src/main/java/com/example/myandroidconfettiapp/MainActivity.kt:157-162 | recycling one more record after a batch is one more push |
| Pool.RecycleAllPrefix | app/src/main/java/com/example/myandroidconfettiapp/MainActivity.kt:157-162 | a batch of recycles leaves the longest prefix of old pool + batch that fits in 1000: the order is kept and the excess is dropped |
| Pool.RecycleAllSize | app/src/main/java/com/example/myandroidconfettiapp/MainActivity.kt:157-162 | after a batch the pool holds min(old size + batch size, 1000) records, all taken from the old pool and the batch |
| Pool.RecycleAllAppend | app/src/main/java/com/example/myandroidconfettiapp/MainActivity.kt:157-162 | recycling two batches one after the other leaves the same pool as recycling their concatenation |
| Pool.ObtainOrderShape | app/src/main/java/com/example/myandroidconfettiapp/MainActivity.kt:128-154 | k obtains in a row hand out the top min(k, pool size) pooled records, most recently recycled first, then newly allocated handles in increasing order |
| Pool.ObtainOrderFrom | app/src/main/java/com/example/myandroidconfettiapp/MainActivity.kt:128-154 | every handle a run of obtains gives was pooled or is newly allocated |
| Pool.ObtainAfterRecycle | app/src/main/java/com/example/myandroidconfettiapp/MainActivity.kt:128-130 | obtaining right after a recycle into a pool with room gives back the record just recycled and restores the pool: last in, first out |
| Seqs.ReverseAt | app/src/main/java/com/example/myandroidconfettiapp/MainActivity.kt:129 | reversing a sequence mirrors its positions, which is the order in which `removeLast` empties the pool |
| Bursts.Spawn | app/src/main/java/com/example/myandroidconfettiapp/MainActivity.kt:182-209 | a burst particle starts at exactly (x, y) and draws its palette colour, shape, size in [8, 18], aspect ratio ([3, 5] for ribbons, [0.5, 2) otherwise), rotation, spin, flip, wobble and drag from the source's ranges; its velocity is the polar projection of an angle in [0, 2π) and a speed in [100, 280], both scaled by the multiplier, plus an upward bias of 240 times the multiplier |
| Bursts.SpawnedAtOrigin | app/src/main/java/com/example/myandroidconfettiapp/MainActivity.kt:189-198 | any attribute record a burst can produce starts at the burst's origin, with a palette colour and a size in [8, 18] |
| Engine.FateAt | app/src/main/java/com/example/myandroidconfettiapp/MainActivity.kt:224-225 | the fate of an allocated record is its record's fate for the frame; only an allocated record can survive or retire |
| Engine.SteppedAt | app/src/main/java/com/example/myandroidconfettiapp/MainActivity.kt:223-259 | after the frame, each record on a duplicate-free list is its stepped state, and every other record is untouched |
| Engine.SteppedOutside | app/src/main/java/com/example/myandroidconfettiapp/MainActivity.kt:223-259 | a record not on the list is untouched by the frame |
| Engine.SteppedStep | app/src/main/java/com/example/myandroidconfettiapp/MainActivity.kt:224-258 | handling one more record, not handled before, changes only that record's slot |
| Engine.SelectStep | app/src/main/java/com/example/myandroidconfettiapp/MainActivity.kt:223-259 | the selection of each fate over one more handle extends the previous selection by that handle exactly when the handle has the fate |
| Engine.SelectMembers | app/src/main/java/com/example/myandroidconfettiapp/MainActivity.kt:223-259 | a handle is among the survivors, the retired or the skipped exactly when it was on the list and its record has that fate, in both directions |
| Engine.SelectCount | app/src/main/java/com/example/myandroidconfettiapp/MainActivity.kt:223-259 | each handle occurs in the selection of its own fate as often as on the list, and not at all in the other two |
| Engine.SelectSplit | app/src/main/java/com/example/myandroidconfettiapp/MainActivity.kt:223-259 | survivors, retired and skipped records together are exactly the old list, each handle as often: no particle is lost or duplicated |
| Engine.AllRetire | app/src/main/java/com/example/myandroidconfettiapp/MainActivity.kt:222-264 | when every particle retires, the live list empties, all of them are recycled in order, and the pool grows to min(old size + N, 1000) |
| Engine.FramesPool | app/src/main/java/com/example/myandroidconfettiapp/MainActivity.kt:222-264 | after any run of updates the pool is the old pool with every retired record recycled in retirement order, as if all had retired in one frame |
| Engine.NoneSkipped | app/src/main/java/com/example/myandroidconfettiapp/MainActivity.kt:224-225 | when every listed record is alive, an update skips none of them |
| Engine.FrameAccount | app/src/main/java/com/example/myandroidconfettiapp/MainActivity.kt:222-264 | one update of distinct live records leaves distinct live survivors, and survivors and retired records together are exactly the old list |
| Engine.FramesAccount | app/src/main/java/com/example/myandroidconfettiapp/MainActivity.kt:222-264 | over any run of updates from distinct live records, every record of the list is retired in exactly one frame or is still live at the end |
| Engine.AllRetireOverFrames | app/src/main/java/com/example/myandroidconfettiapp/MainActivity.kt:222-264 | when the listed particles have all passed the line after some updates, the pool holds min(old size + N, 1000) records, so an empty pool ends with min(N, 1000) |
| Engine.CompactionNoDup | app/src/main/java/com/example/myandroidconfettiapp/MainActivity.kt:249-257 | after an update no record is held twice, neither in the compacted list nor in the pool: each retired particle is pooled at most once and is no longer live |
| Engine.UpdateOwns | app/src/main/java/com/example/myandroidconfettiapp/MainActivity.kt:249-257 | the survivors and the new pool address allocated records only |
| Engine.SurvivorsAlive | app/src/main/java/com/example/myandroidconfettiapp/MainActivity.kt:252-257 | every survivor is alive after the frame |
| Engine.PoolStaysDead | app/src/main/java/com/example/myandroidconfettiapp/MainActivity.kt:249-251 | if the pool held only dead records, after the frame it holds only dead ones, old and newly retired |
| Engine.UpdateSkips | app/src/main/java/com/example/myandroidconfettiapp/MainActivity.kt:225 | a dead record at the read position is passed over: it is neither kept nor recycled, and its slot is untouched |
| Engine.UpdateRetires | app/src/main/java/com/example/myandroidconfettiapp/MainActivity.kt:249-251 | a record that falls below the line is stepped, marked dead and added to the retired batch, not to the survivors |
| Engine.UpdateKeeps | app/src/main/java/com/example/myandroidconfettiapp/MainActivity.kt:252-257 | a record that stays above the line is stepped, stays alive and is added to the survivors, not to the retired batch |
| Engine.UpdateKeepsValid | app/src/main/java/com/example/myandroidconfettiapp/MainActivity.kt:222-264 | update keeps the engine invariant: handles allocated, the pool within 1000, no record held twice |
| Engine.UpdateKeepsPartition | app/src/main/java/com/example/myandroidconfettiapp/MainActivity.kt:222-264 | if live records were alive and pooled ones dead before the update, the same holds after it |
| Engine.ObtainReused | app/src/main/java/com/example/myandroidconfettiapp/MainActivity.kt:129-130 | moving the top of the pool to the end of the live list keeps every handle allocated and none held twice |
| Engine.ObtainReusedPartition | app/src/main/java/com/example/myandroidconfettiapp/MainActivity.kt:129-147 | reusing the top of the pool as a live particle keeps live records alive and pooled ones dead |
| Engine.ObtainFresh | app/src/main/java/com/example/myandroidconfettiapp/MainActivity.kt:148-153 | a newly allocated particle appended to the live list keeps every handle allocated, none held twice, live records alive and pooled ones dead |
| Engine.BurstRecordsStep | app/src/main/java/com/example/myandroidconfettiapp/MainActivity.kt:189-210 | one more burst particle written to a reused or new record keeps every new record live and spawned at the origin, and every other record unchanged |
| Engine.BurstOrderStep | app/src/main/java/com/example/myandroidconfettiapp/MainActivity.kt:189-210 | one more burst particle takes the top of the pool while it lasts, then a new record |
| Engine.BurstAtOrigin | app/src/main/java/com/example/myandroidconfettiapp/MainActivity.kt:189-191 | every particle of a burst is alive and starts at exactly (x, y) |
| Engine.BurstKeepsLive | app/src/main/java/com/example/myandroidconfettiapp/MainActivity.kt:182-211 | a burst leaves the records of the particles that were already live unchanged |
| Engine.ConfettiEngine.constructor | app/src/main/java/com/example/myandroidconfettiapp/MainActivity.kt:165-171 | a new engine has no particles, an empty pool, screen height 2000 and frame counter 0, and satisfies both invariants |
| Engine.ConfettiEngine.HasParticles | app/src/main/java/com/example/myandroidconfettiapp/MainActivity.kt:328 | true exactly when the live list is non-empty |
| Engine.ConfettiEngine.DrawParticle | app/src/main/java/com/example/myandroidconfettiapp/MainActivity.kt:183-208 | the random draws of one particle give attributes a burst at (x, y) can produce, starting at (x, y) |
| Engine.ConfettiEngine.SpawnParticle | app/src/main/java/com/example/myandroidconfettiapp/MainActivity.kt:183-210 | one iteration: the new particle goes to the end of the live list, its record is alive and spawned at the origin, and it comes from the top of the pool or a new allocation; both invariants are kept |
| Engine.ConfettiEngine.SpawnAll | app/src/main/java/com/example/myandroidconfettiapp/MainActivity.kt:182-211 | `repeat(count)`: after the loop the burst has added max(count, 0) particles, in obtain order |
| Engine.ConfettiEngine.AddBurst | app/src/main/java/com/example/myandroidconfettiapp/MainActivity.kt:173-212 | adds between first and last particles (none for a negative count); the live list is the old list followed by the obtained handles; the pool loses min(count, pool size) records from its top and the rest are newly allocated; new records are live and spawned at (x, y); the records of particles already live are unchanged; the engine invariant and the partition are kept |
| Engine.ConfettiEngine.StepParticle | app/src/main/java/com/example/myandroidconfettiapp/MainActivity.kt:224-258 | one loop iteration: a dead record is passed over; a live one is stepped and then either marked dead and recycled when below the bottom line, or written to the write position, which advances by one |
| Engine.ConfettiEngine.MoveAll | app/src/main/java/com/example/myandroidconfettiapp/MainActivity.kt:222-259 | the two-index pass: writeIndex ≤ readIndex throughout; afterwards the first writeIndex entries are the survivors in their original order, the pool is the old pool after recycling the retired particles in order, and the records are the stepped ones |
| Engine.ConfettiEngine.Update | app/src/main/java/com/example/myandroidconfettiapp/MainActivity.kt:214-267 | on an empty list nothing changes, the frame counter included; otherwise the counter goes up by exactly one, with dt clamped and the line at screenHeight + 100; the live list is exactly the survivors in order (the trimmed length is writeIndex), the pool is the old pool with the retired particles recycled in order, dead records are dropped without recycling, and both invariants are kept |

## Left out

- The Compose UI is not modelled: `ConfettiScreen`, `MainActivity.onCreate` and the coroutine-driven frame loop.
- Shake detection through the accelerometer and vibration are not modelled, because they are Android sensor and haptics I/O.
- The theme file is not modelled. It selects colour schemes and has no logic.
- The drawing is not modelled: `drawRibbon`, `drawStar`, the shape branches of `draw` and its rotation and scaling calls are emitted to the foreign `DrawScope` and `Path` API. Only the `scaleX` clamp is modelled, in `ScaleX`.
- `exp`, `sin` and `cos` are parameters, not their real definitions. Nothing is assumed about them, except in `DragDecays`, which assumes a decay factor in [0, 1].
- Particles.Advance: `Float` arithmetic and its rounding are modelled as exact real arithmetic, so the constants 0.025, 450, 280, 100, 0.15 and 2π are exact decimals. 2π is the `Float` value of `(Math.PI * 2).toFloat()` rounded to 6.2831855, about 1.8e-8 above it.
- Particles.FrameDt: the `Long` nanosecond count divided by a `Float` is taken as exact real division.
- Engine.ConfettiEngine.Update: `frameCounter` is an unbounded natural number. The `Long` counter would wrap only after 2^63 frames.
- Engine.ConfettiEngine.AddBurst: `particleCount.last + 1` is taken without the `Int` overflow at `Int.MAX_VALUE`, which would make the source throw.
- Engine.ConfettiEngine.AddBurst: `Random` becomes nondeterministic choice, so the model does not capture uniformity.
- Engine.ConfettiEngine.AddBurst: the default arguments `particleCount = 60..90` and `speedMultiplier = 1f` are not modelled; the tap burst is `AddBurst(x, y, 60, 90, 1.0)`.
- Bursts.Spawn: draws and formulas are over exact reals, where every range is half-open. `Float` rounding at the largest `nextFloat()` can carry size, ribbon aspect ratio, wobble amplitude, drag and base speed onto their upper bound, so the contract states those five bounds inclusive.
- The `initialCapacity` argument of `ParticlePool` (an `ArrayDeque` sizing hint) and the `ArrayList(1000)` sizing hint have no observable effect and are not modelled.
- `screenHeight` is read by `Update` but its setter from the UI is not an operation of the model.
- Object identity is modelled by arena handles. Records are never freed: a record dropped by a full pool keeps its slot, where the source would leave it to the garbage collector.
- Engine.ConfettiEngine.StepParticle: the loop bodies of `update` and `addBurst` are factored into their own methods, `StepParticle` and `SpawnParticle`. The loops themselves are in `MoveAll` and `SpawnAll`. The state changes are the same as the inline code.
- The Kotlin exception for an empty count range (`first > last`) is not modelled as an error result. `AddBurst` requires a non-empty range instead, as the source's callers must provide one.
