# Firework particle store and update pass

A model of the particle engine of a DirectX 11 firework display: the store of live
particles and the per-frame update pass that moves them, lets them emit new particles
and removes the dead ones.

The store is two index-aligned sequences: render records (`Firework`: position, scale,
colour, rotation) and simulation records (`FireworkUpdate`: type, velocity, life, timer and
payload fields). It has a hard cap of 50000 records. `AddFirework` appends one pair, or
silently does nothing when the store is full. `RemoveFireworkIfDeadAndMoveToNext` removes a
dead record by copying the last pair over it and popping. The cursor then stays where it
is, so the record moved into the slot is visited next.

`UpdateFireworks` walks the store once per frame. For each record it:

- moves it by its velocity, applies gravity and takes one tick off its life;
- fades, shrinks and damps stars;
- runs the trail-star timer loop, emits one comet spark, or bursts a dead Peony or Brocade
  rocket into stars;
- then removes the record or advances.

Records appended during the pass land at the end, so the same pass reaches them.

The project has four modules:

- `Vectors`: the 3-vector and colour values.
- `Sequences`: swap-with-last removal, the rotation it causes among the records not yet
  visited, and runs of identities.
- `Particles`: the record types, the tuning constants and the per-record rules as functions.
  These cover the in-flight update, the emitted records, the number of append attempts per
  tick, the capacity gate, and the generations that make the pass end.
- `Scene`: the store as the class `FireworkStore`. Its sequence fields are reassigned by
  methods that follow the source statement by statement. Its `while` loops (the pass, the
  trail timer, the burst `for` loop) carry their invariants.

Each record carries a ghost birth number (`Ids`, `NextId`). This lets the pass state that
every record is visited exactly once. A ghost map `origin` gives every survivor an entry
that it is exactly one tick ahead of; for a record present at the start, that entry is its
starting state. A ghost trace of the pass (`Run`, a sequence of visits) fixes, visit by visit, the
tick of the record under the cursor, the records it gives birth to and the removal or
advance after it. `PassUnique` shows that from a given start there is only one such trace,
so the trace also fixes which records are born, how many and what they hold. The log of
visited identities is read off the trace (`Logged`), one identity per visit, so "every
record is visited exactly once" is a statement about the visits themselves.

With timer 0.12 and frame time 0.2, the trail loop at Scene.cpp:847-864 makes 2 spark
attempts and leaves the timer at 0.02 (`Particles.TrailWorkedExample`).

The emission loops are written as one method per loop pass, each proved against the loop's
invariant: `TrailStep` for the trail loop in `UpdateTrail`, and `BurstStep` for the burst
loop in `Burst`. A single append attempt is `EmitSpark` or `EmitBurstStar`, and one random
draw is `Random`. `Emit` dispatches on the record's type to `EmitTrail`, `EmitComet` or
`EmitBurst`.

## Model

| member | source | states |
|---|---|---|
| Scene.FireworkStore.constructor | Scene.cpp:149-150 | the store starts empty, aligned and within the cap |
| Scene.FireworkStore.AddFirework | Scene.cpp:154-160 | returns true exactly when the store held fewer than 50000 pairs; then one pair is appended to each sequence (with a fresh identity); otherwise both sequences are unchanged; the two sequences stay equal in length and within the cap |
| Particles.Admitted | Scene.cpp:154-160 | of k successive appends on a store of n, the number that land: never more than k, never past the cap, all of them when they fit, and fewer only when the store ends full |
| Particles.AdmitThen | Scene.cpp:154-160 | two runs of appends land as one run: the first run's admitted records, then what the second admits on the store the first left |
| Particles.AdmitSnoc | Scene.cpp:154-160 | one more append lands exactly when the store is not yet full |
| Scene.FireworkStore.RemoveFireworkIfDeadAndMoveToNext | Scene.cpp:777-803 | dead record: all three sequences swap-remove slot i and the cursor stays at i, or becomes the new end when i was the last slot; live record: nothing changes and the cursor advances by one; alignment, cap and unique identities are kept |
| Sequences.SwapRemove | Scene.cpp:779-796 | length drops by exactly one; slot i receives the old last element unless i was the last slot; every other slot keeps its element |
| Sequences.SwapRemoveSuffix | Scene.cpp:789-796 | after the removal the slots from i on hold the records that were after i, with the old last one brought to the front, so it is the next one visited |
| Sequences.SwapRemoveMultiset | Scene.cpp:779-796 | removal loses exactly the removed record and keeps every other one as often as before |
| Sequences.SwapRemoveDistinct | Scene.cpp:779-796 | distinct identities stay distinct after a removal |
| Scene.FireworkStore.Fly | Scene.cpp:816-844 | slot i gets its in-flight update (move, gravity, one tick of life, star fade, shrink and damping); all other slots and the store's length are unchanged |
| Particles.InFlightLaws | Scene.cpp:816-844 | position advances by the pre-gravity velocity times the frame time; velocity.y gains Gravity (-30) times the frame time before any damping; life drops by exactly the frame time; stars lose 0.5 alpha and 1.0 scale per second; other types keep colour and scale; type and payload never change |
| Particles.TrailLoopBounds | Scene.cpp:847-864 | the trail loop runs exactly when the decremented timer is at or below 0; it stops with the timer above 0, and at most 0.05 when it ran at all |
| Particles.TrailTimerAfterTick | Scene.cpp:847-864 | a trail star's timer after its tick lies in (0, 0.05] when it emitted, and is the old timer less the frame time when it did not |
| Particles.TrailWorkedExample | Scene.cpp:847-864 | timer 0.12 stepped by 0.2 gives exactly 2 attempts and a final timer of 0.02 |
| Scene.FireworkStore.Random | Scene.cpp:858-859 | one random draw: the oracle's value for the requested bounds at the current call number, which then moves on by one |
| Scene.FireworkStore.EmitSpark | Scene.cpp:850-861 | one spark attempt: exactly three draws, slot i untouched, and the spark (at the emitter's position, half its velocity plus the jitter of those three draws) appended if the gate admits it |
| Scene.FireworkStore.TrailStep | Scene.cpp:848-865 | one pass of the trail loop keeps the loop invariant with one more attempt: n+1 sparks attempted and admitted in order, 3(n+1) draws, and the timer raised by one more 0.05 |
| Scene.FireworkStore.UpdateTrail | Scene.cpp:847-864 | one spark attempt and one 0.05 re-arm per pass of the loop, whether or not the spark got in: TrailAttempts(timer - frameTime) attempts, each admitted spark appended at the end with its own three draws, and slot i left holding the re-armed timer |
| Scene.FireworkStore.EmitComet | Scene.cpp:868-883 | a comet attempts exactly one simple-star spark on every tick, with timer 0.05 |
| Scene.FireworkStore.EmitBurstStar | Scene.cpp:904-916 | one star attempt: exactly three draws, slot i untouched, and the star (at the rocket's position, its velocity plus the rule's jitter) appended if the gate admits it |
| Scene.FireworkStore.BurstStep | Scene.cpp:902-917 | one pass of the burst loop keeps the loop invariant with one more attempt: j+1 stars attempted and admitted in order, 3(j+1) draws, slot i unchanged |
| Scene.FireworkStore.Burst | Scene.cpp:902-918 | a burst attempts exactly max(0, payloadIntA) stars, appends those the gate admits in order, and leaves slot i unchanged |
| Scene.FireworkStore.EmitBurst | Scene.cpp:893-943 | a record that is neither a trail star nor a comet emits only when its life has run out and its type has a burst rule |
| Particles.EmittedRecords | Scene.cpp:848-943 | every emitted record sits at the emitter's position, unrotated. Peony stars: the payload type and colour, scale 1.5, life 1.4, timer 0. Brocade stars: StarSmallTrail in the payload colour, scale 1.5, life 7, timer 0.05. Trail and comet sparks: StarSimple in the emitter's colour, scale 0.75, life 0.4; a comet's spark has timer 0.05 |
| Particles.EmittedJitterBounded | Scene.cpp:855-938 | with in-range random draws, each emitted velocity is the rocket's velocity (burst) or half the emitter's (spark), off by at most the rule's range (50, 60 or 5) on each axis |
| Particles.AttemptsZero | Scene.cpp:838-943 | a record makes no append attempt in a tick exactly when it is a simple star or a FancyPeony, a trail star whose timer stays positive, or a Peony or Brocade that survives the tick or has no positive star count |
| Particles.BurstWorkedExample | Scene.cpp:893-918 | a Peony with payloadIntA 100 and life 0.01, stepped by 0.5, attempts exactly 100 stars and ends the tick dead |
| Scene.FireworkStore.Emit | Scene.cpp:846-943 | after the in-flight update, a record makes exactly Attempts(u, frameTime) append attempts with three draws each, and the admitted emitted records are appended in order |
| Scene.FireworkStore.EmitTrail | Scene.cpp:846-866 | a trail star's emissions are its timer loop's sparks: Attempts attempts, three draws each, admitted ones appended |
| Scene.FireworkStore.UpdateFirework | Scene.cpp:814-945 | the body of the loop before the removal: slot i is replaced by its in-flight update and the admitted emissions are appended at the end; the number of random draws is three per attempt |
| Scene.FireworkStore.Visit | Scene.cpp:814-948 | one pass of the loop: the tick of slot i, with three random draws per append attempt, then removal or advance; a recorded pass that reached slot i is extended by exactly this step |
| Scene.RunExtends | Scene.cpp:813-948 | a recorded pass followed by one more visit from the point it reached is a recorded pass |
| Scene.StepUnique | Scene.cpp:814-948 | a visit from a given store, cursor and random-call number has only one outcome: the ticked store, the store after removal or advance, the new cursor and call number |
| Scene.RunAgree | Scene.cpp:813-948 | two recorded passes from the same start take the same first k visits and reach the same point after them |
| Scene.Logged | Scene.cpp:813-948 | the log of a recorded pass has one identity per visit, the k-th being the identity of the record under the cursor at visit k |
| Scene.PassUnique | Scene.cpp:807-950 | two recorded passes from the same start that both end with the cursor at the end of the store are the same pass and leave the same store and random-call number |
| Particles.EmittedLowerRank | Scene.cpp:848-941 | every emitted record belongs to a lower generation than its emitter and is never a Peony (needs the launch assumption on the emitter) |
| Particles.VisitLowersPending | Scene.cpp:813-948 | visiting a pending record takes it out of the pending ones and adds only lower generations, in either order the removal leaves them, so the pending records decrease lexicographically by generation |
| Scene.VisitDecreases | Scene.cpp:813-948 | each visit lowers the termination measure of the pass, counting the swapped-in and appended records as pending |
| Scene.VisitLogsIdentity | Scene.cpp:813-948 | each visit moves the visited identity to the log, and newborn identities join the pending ones |
| Scene.VisitStaysQuiet | Scene.cpp:813-948 | if every starting record expires this tick without emitting, each visit removes the record at slot 0, adds nothing and keeps the cursor at 0 |
| Scene.VisitKeeps | Scene.cpp:813-948 | after a visit the visited record is among the records before the new cursor exactly when its life after the tick is positive, and every earlier visited record keeps that standing |
| Scene.VisitStep | Scene.cpp:813-948 | one visit keeps the pass invariant (alignment, launch assumption, live records before the cursor, exact identity accounting, each slot tracked against its origin, each visited record kept exactly when alive after its tick) and lowers the measure |
| Scene.PassEnds | Scene.cpp:813 | when the cursor reaches the end, every record is alive, the log of visited identities is complete, each record is its origin advanced one tick, a visited record is in the store exactly when its tick left it alive, and a quiet pass leaves nothing |
| Scene.FireworkStore.UpdateFireworks | Scene.cpp:807-950 | the pass ends (under the launch assumption). The store stays aligned and within the cap. The log of visited identities is exactly the identities of the trace's visits, in order (`Logged`), and it holds each starting identity and each identity born during the pass exactly once. No record with life <= 0 is left, and every visited record whose life after its tick is positive is still in the store. Each survivor equals its `origin` entry advanced by exactly one tick, so its life is exactly frameTime lower; for a starting record that entry is its starting state. If every record expires this tick without emitting, the store ends empty. The returned trace is a recorded pass from the starting store, cursor 0 and random-call number to the final store with the cursor at its end: each visit is a tick (with the births the emission rules give and three draws per attempt) followed by removal or advance, so by `Scene.PassUnique` the final store, its births and the draw count are determined by the start |

## Left out

- Direct3D setup, the vertex upload and the draw call are GPU I/O, and so is the vertex layout. The ImGui panel with its launch buttons is UI glue. The rest of `UpdateScene` (camera, light, window title) is input and OS calls. None of this is modelled; the launch paths (Scene.cpp:637-716) only motivate the launch assumption below.
- `Math/CVector3.cpp` is not part of this model beyond the two operators the particle rules use. These are componentwise `+` and multiplication by a scalar, as `Vectors.Add` and `Vectors.Scale`. `RandomVectorInCone`, `Normalise` and `Length` are used only by launches.
- `Random(lo, hi)` is declared in a file that is not part of this model. It is an oracle indexed by a call counter (`draws`), and `InRange` assumes each draw lies within the requested bounds. The three draws of a `CVector3{...}` are taken left to right for x, y and z.
- `powf(0.5f, frameTime)` is the parameter `decay`: a foreign floating-point call, left uninterpreted.
- IEEE single-precision rounding is not modelled: all `float` fields are `real`. For ordinary frame times the trail loop with the inexact `0.05f` may make one attempt more or fewer in floating point than `TrailAttempts` gives. For a timer of large magnitude the rounding compounds: around -1000 the error accumulated over the loop's passes amounts to several attempts, and below -2^20 adding `0.05f` no longer changes the timer, so the source loop never ends while `TrailAttempts` is finite.
- `payloadIntA` is an unbounded `int`. The loop `for (int i = 0; i < payloadIntA; ++i)` cannot overflow, so this loses nothing.
- The fields the source leaves unset in an emitted record are taken from a caller-supplied record `blank`, shared by all emissions of the pass; no rule reads them, since every emitted record is a simple star, a trail star with its timer set, or a FancyPeony, and none of these reads its payload. For trail sparks these are every field but type, velocity and life. For burst stars and comet sparks they are the payload fields.
- Iterators are modelled as an index. This is exact because both vectors are reserved to the cap (Scene.cpp:313-314), so appends never move the records.
- The burst rule table (`BurstRuleOf`) dispatches on type. The burst branches of the source are separate `if` tests on the type, so it picks the same rule; its contents are stated by `Particles.EmittedRecords` and `Particles.AttemptsZero`.
- Scene.FireworkStore.UpdateFireworks: requires the launch assumption `FinitePayload`, that a Peony's payload type is not a Peony, Comet or Brocade rocket (a star or a FancyPeony is allowed). Every launch path obeys it (Scene.cpp:637-716). The assumption is stronger than the source needs: a Peony of Comets or of Brocades still ends the pass, because a comet has no burst and a Brocade's stars are trail stars. It is the model's termination measure, which ranks the three rockets alike, that needs Comet and Brocade payloads excluded too. Without the assumption the source's pass could still fail to end only under two conditions together: the frame time is at least 1.4, so that a burst's stars (life 1.4, Scene.cpp:914) die in the same pass, and the payload fields those stars leave unset (Scene.cpp:910-915 sets none) name a Peony with a positive star count.
- Scene.FireworkStore.UpdateFireworks: the records born during the pass are fixed only through the returned trace, visit by visit. The contract does not state the births in closed form, and it does not tie a born record's `origin` entry to the trace.
- Scene.FireworkStore.UpdateFireworks: the final order of the records is not stated. It follows from the swap removals and the appends, but the model tracks it only as the rotation of the pending records.
