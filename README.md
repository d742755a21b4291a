# ctr-kart-threejs kart core, in Dafny

A model of the per-frame logic of the kart in ctr-kart-threejs, a Three.js
remake of the kart from Crash Team Racing, plus the Python clean-up script
for the turbo models. What the model covers:

- **Vehicle** (`kart.dfy`): the `Kart` class. It models the speed
  integration clamped into [0, 821.25], the heading, which turns only while
  the kart moves, and the steer-direction key state machine. It also models
  the cosmetic body lean: easing toward the target, the clamp to ±30 and
  the "idle" adjustment. The rest is the engine detune, the copy from the
  physics body and the order of `update`.
- **LegacyMain** (`legacy_main.dfy`): the first, single-file game loop. It
  has an integer speed ticked by +480 or −130 at most once every 0.03 s,
  capped at 13140. It also has the key flags, the engine detune, and the
  turbo flipbook template whose current frame lives in the group's user
  data.
- **Turbo** (`turbo_exhaust.dfy`) and **Flipbook** (`flipbook.dfy`): the two
  8-frame turbo exhausts. They advance in lockstep under a 0.03 s timer,
  with the invariant that exactly one frame of each is visible, the current
  one.
- **Utils** (`utils.dfy`): the sprite-sheet window arithmetic of
  `setSpriteFrame`, including mirroring. It also has `reverseNumber`,
  `normalizeToMax`, `scaleValue`, `closestStepValue` (with JavaScript's
  `Math.round`) and `generateIndexes` (with the `Uint16Array` wrap-around).
- **TireSprites** (`tires.dfy`): how a tire sprite's frame, mirroring and
  rotation are chosen from its angles to the camera, the speed-scaled
  parity toggle of the tire colour, and the four tire positions.
- **Smoke** (`smoke_holder.dfy`): the smoke particle list. Two smokes spawn
  per 0.03 s. The animation pass is modelled literally, including the
  `splice` inside `forEach` that skips the smoke right after a removed one.
  It also covers each smoke's movement, rotation and scale interpolation.
- **ObjFilter** (`obj_filter.dfy`): the loop of `filter_geometry`. It drops
  `usemtl` lines naming an excluded material and face lines whose first
  vertex index is 1 to 48. A bare `usemtl` line raises IndexError.
- **Numeric** (`numeric.dfy`): `Math.abs`, `Math.sign`, `Math.min`,
  `Math.max`, a clamp and a 3-vector, shared by the modules above.

How the model is built:

- **Clocks.** Every `CustomTimer` is modelled by the clock reading it was
  last reset at. A method that reads a timer takes the current reading
  `now`, and the timer's elapsed time is `now` minus that start.
- **Inputs.** Random draws, the physics engine's answers and the camera
  angles are parameters of the methods that use them.
- **Scene graph.** Group membership is a sequence of object ids.
- **Numbers.** Speeds, angles and positions are `real`.

The methods follow the source's statements, with one exception:
`Vehicle.Kart.DoModelRotation` runs the phases of `doModelRotation` through
the functions `LeanTarget`, `LeanStep`, `Clamp` and `IdleAdjust`, which hold
the arithmetic. Those functions are what the lemmas about the lean speak of.

## Model

| member | source | states |
|---|---|---|
| Vehicle.SpeedAfter | assets/js/gameobjects/kart.js:227-239 | one speed step always lands in [0, SPEED_BASE = 821.25] |
| Vehicle.SpeedAfterMonotone | assets/js/gameobjects/kart.js:227-239 | holding the accelerator gives min(speed + (30/0.03)·dt, 821.25) and never slows; otherwise max(speed − (8.125/0.03)·dt, 0) and never speeds up |
| Vehicle.SpeedFromStandstill | assets/js/gameobjects/kart.js:227-239 | 0.5 s of acceleration from rest reaches 500; 0.82125 s reaches the cap exactly; the cap and zero are fixed points |
| Vehicle.SteerAfterKeyDown | assets/js/gameobjects/kart.js:215-219 | pressing an arrow sets the steer direction to it; any other key leaves it |
| Vehicle.SteerAfterKeyUp | assets/js/gameobjects/kart.js:221-225 | releasing an arrow resets the direction to NONE only when it currently is that arrow |
| Vehicle.SteeringSequences | assets/js/gameobjects/kart.js:215-225 | left down, right down, left up leaves RIGHT; pressing and releasing one arrow leaves NONE |
| Vehicle.KeyUpNeverTurns | assets/js/gameobjects/kart.js:221-225 | a key release either keeps the direction or resets it to NONE |
| Vehicle.AngleAfterSteering | assets/js/gameobjects/kart.js:254-257 | the heading changes by −steer·dt·32/30 only while the speed is nonzero; left turns increase it, right turns decrease it, zero speed or no direction leaves it |
| Vehicle.LeanTarget | assets/js/gameobjects/kart.js:303-305 | the lean target is steer·30 while the accelerator is held and 0 otherwise, even with an arrow held; at most 30 in magnitude |
| Vehicle.LeanStepToward | assets/js/gameobjects/kart.js:307-315 | for dt ≥ 0 the lean moves toward the target without overshooting it, by at most 60·dt·(1 + \|target − current\|/30) |
| Vehicle.IdleAdjustAwayFromZero | assets/js/gameobjects/kart.js:320-325 | the idle adjustment adds sign(current)·min(\|current\|, 15·dt): it pushes away from zero, strictly when current ≠ 0 and dt > 0 |
| Vehicle.IdleLeanShrinks | assets/js/gameobjects/kart.js:302-325 | with no direction in effect, the step towards zero, the clamp and the idle push together never grow the lean's magnitude |
| Vehicle.LeanAfterBounded | assets/js/gameobjects/kart.js:302-325 | from a lean within ±30, one call stays within ±30, and with no direction in effect the magnitude never grows |
| Vehicle.EngineDetune | assets/js/gameobjects/kart.js:298 | for a speed in [0, 821.25] the detune lies between −1100 and −1100 + 1.95·821.25 |
| Vehicle.EngineDetuneRange | assets/js/gameobjects/kart.js:298 | the detune strictly increases with speed, from −1100 at rest to 501.4375 at the cap |
| Vehicle.Kart.constructor | assets/js/gameobjects/kart.js:12-95 | a new kart is at rest, not steering, off the ground, with no lean or lean target, detune 0 and position and rotation at the origin; its tires, exhausts (frame 0, groups hidden, timer at now) and empty smoke holder are created |
| Vehicle.Kart.HandleKeyDown | assets/js/gameobjects/kart.js:215-219 | "x" presses the accelerator; the steer direction follows SteerAfterKeyDown and stays in [−1, 1] |
| Vehicle.Kart.HandleKeyUp | assets/js/gameobjects/kart.js:221-225 | "x" releases the accelerator; the steer direction follows SteerAfterKeyUp and stays in [−1, 1] |
| Vehicle.Kart.DoSpeedLogic | assets/js/gameobjects/kart.js:227-239 | the new speed is SpeedAfter of the old one, hence within [0, 821.25] |
| Vehicle.Kart.ComputePhysics | assets/js/gameobjects/kart.js:241-287 | grounded is the ray answer; the heading uses the speed from before this frame's speed step; the impulse is speed·0.01 and is applied only when nonzero; the damping is −0.4 of the horizontal velocity |
| Vehicle.Kart.DoKartSound | assets/js/gameobjects/kart.js:289-300 | the detune follows the current speed |
| Vehicle.Kart.DoModelRotation | assets/js/gameobjects/kart.js:302-334 | the target is LeanTarget, the new lean is LeanAfter of the old one, and a lean within ±30 stays within ±30 |
| Vehicle.Kart.CopyPhysicsPositionsToObject3D | assets/js/gameobjects/kart.js:336-340 | the visual position is the body translation lowered by 0.26, the rotation (0, heading, 0) |
| Vehicle.Kart.Update | assets/js/gameobjects/kart.js:342-363 | physics, lean, sound and copy as UpdateMotion gives them, then every tire showing the window, rotation and colour for its view and the new speed, the turbo advancing exactly when visible and due, and the smoke list as Pass over the old list plus any spawned pair; the key and turbo flags and the sub-objects stay as they were, and the kart invariant is kept |
| Vehicle.Kart.UpdateMotion | assets/js/gameobjects/kart.js:343-353 | the ground flag from the ray, and speed, heading, lean, detune, position and rotation each as the step functions give them from the old state, with the impulse and damping returned |
| Vehicle.Kart.UpdateEffects | assets/js/gameobjects/kart.js:355-362 | each tire takes the window and rotation SelectTireSprite picks for its view and the colour for the speed; the turbo advances one frame and resets its timer exactly when visible and due, otherwise stays; the smoke list becomes Pass of the old list, plus the spawned pair when due, and grows by at most two |
| LegacyMain.TickSpeed | assets/js/main.js:831-838 | an accepted tick always leaves the speed in [0, 13140] |
| LegacyMain.TickSpeedApproach | assets/js/main.js:831-838 | a tick adds 480 up to the cap while accelerating and takes 130 down to zero otherwise, strictly moving unless at the bound |
| LegacyMain.TicksSpeed | assets/js/main.js:831-838 | after at least one tick the speed is in [0, 13140] |
| LegacyMain.AccelerateFromStandstill | assets/js/main.js:831-838 | from 0, n held ticks give 480·n for n ≤ 27, and the 28th tick and every later one give exactly 13140 |
| LegacyMain.SpeedScenarios | assets/js/main.js:65-70 | ten held ticks from rest give 4800, 28 give 13140, and one released tick from 4800 gives 4670 |
| LegacyMain.EngineDetune | assets/js/main.js:851 | for a speed in [0, 13140] the detune lies between −1100 and −1100 + 0.12·13140 |
| LegacyMain.EngineDetuneIncreasing | assets/js/main.js:851 | the detune strictly increases with speed |
| LegacyMain.GameState.constructor | assets/js/main.js:95-107 | the loop starts not accelerating, at speed 0, sound off, light smoke, smoke visible |
| LegacyMain.GameState.OnKeyDown | assets/js/main.js:241-260 | "s", "b", "n" toggle sound, dark smoke and smoke visibility; "v" stops before the smoke keys; space presses the accelerator; nothing else changes |
| LegacyMain.GameState.OnKeyUp | assets/js/main.js:262-264 | releasing space releases the accelerator; nothing else changes |
| LegacyMain.GameState.DoSpeedLogic | assets/js/main.js:821-839 | below 0.03 s since the last accepted tick nothing changes; otherwise the tick time is recorded, the target is 13140 or 0 from the accelerator, and the speed takes one TickSpeed step |
| LegacyMain.GameState.DoKartSound | assets/js/main.js:842-853 | the detune follows the current speed |
| LegacyMain.TurboTemplate.constructor | assets/js/main.js:400-415 | only frame 0 is visible and the current frame is 0 |
| LegacyMain.TurboTemplate.NextTurboFrame | assets/js/main.js:438-449 | the current frame advances by one modulo the frame count, the old frame is hidden, the new one shown, nothing else changes, and exactly one frame stays visible |
| Flipbook.NextFrame | assets/js/gameobjects/turboExhaust.js:70-75 | the next frame is (k + 1) mod n, always a valid frame |
| Flipbook.AdvanceFrames | assets/js/gameobjects/turboExhaust.js:69-81 | any number of advances stays on a valid frame |
| Flipbook.AdvanceFramesCycle | assets/js/gameobjects/turboExhaust.js:69-81 | m advances from frame k land on (k + m) mod n |
| Flipbook.AdvanceFramesPeriod | assets/js/gameobjects/turboExhaust.js:69-81 | n advances return to the same frame |
| Flipbook.ChangeFrameMovesVisibility | assets/js/gameobjects/turboExhaust.js:83-88 | hiding the only visible frame and showing another keeps exactly one visible, the new one, and touches no other frame |
| Flipbook.CreateFrames | assets/js/gameobjects/turboExhaust.js:31-43 | a new flipbook shows its first frame and hides the rest |
| Flipbook.ChangeFrame | assets/js/gameobjects/turboExhaust.js:83-88 | the last frame is hidden and then the current one shown, and no other frame changes |
| Turbo.TurboExhaust.constructor | assets/js/gameobjects/turboExhaust.js:45-63 | two exhausts of 8 frames each with only frame 0 flagged visible, both exhaust groups themselves hidden, timer started now |
| Turbo.TurboExhaust.GetExhaustObject | assets/js/gameobjects/turboExhaust.js:65-67 | false gives child 0 (left), true gives child 1 (right) |
| Turbo.TurboExhaust.Lockstep | assets/js/gameobjects/turboExhaust.js:77-78 | the left and right exhausts always show the same frame |
| Turbo.TurboExhaust.NextTurboFrame | assets/js/gameobjects/turboExhaust.js:69-81 | the frame becomes (old + 1) mod 8 in both exhausts, and exactly one frame of each stays visible; the timer and the groups' own visibility are unchanged |
| Turbo.TurboExhaust.Update | assets/js/gameobjects/turboExhaust.js:90-95 | it advances exactly one frame and resets the timer iff at least 0.03 s have elapsed; otherwise nothing changes; the groups' own visibility is never touched |
| Utils.ReverseNumber | assets/js/utils.js:87-89 | reverseNumber(s, c, m) equals s + m − c |
| Utils.ReverseNumberProperties | assets/js/utils.js:87-89 | the function swaps s and m and is an involution in c |
| Utils.NormalizeToMax | assets/js/utils.js:92-94 | the result times max gives back the value |
| Utils.ScaleValue | assets/js/utils.js:97-99 | scaling is normalising to the original maximum and multiplying by the new one |
| Utils.ScaleValueEndpoints | assets/js/utils.js:92-99 | the original maximum maps to the new maximum, 0 to 0, and the maximum normalises to 1 |
| Utils.JsRound | assets/js/utils.js:103 | Math.round gives the integer within (x − 0.5, x + 0.5] |
| Utils.ClosestStepValueNearest | assets/js/utils.js:102-104 | the result is an integer multiple of the step, at most half a step from the value |
| Utils.ClosestStepValueIdempotent | assets/js/utils.js:102-104 | snapping an already snapped value gives it back |
| Utils.JsRem | assets/js/utils.js:16 | JavaScript's % takes the sign of the dividend and stays below the divisor in magnitude |
| Utils.SpriteWindowRowColumn | assets/js/utils.js:16-23 | frame row·total + col has offset x col·w/W, offset y 1 − (row·h + h)/H and repeat (w/W, h/H) |
| Utils.SpriteStripFrame | assets/js/utils.js:16-23 | in a one-row strip, frame i < total has offset (i/total, 0) |
| Utils.SpriteMirrorSameWindow | assets/js/utils.js:33-36 | mirroring negates repeat x and moves offset x by repeat x, so it shows the same window reversed |
| Utils.SetSpriteFrame | assets/js/utils.js:9-37 | the material's offset and repeat become the frame's window (mirrored when asked), its rotation the given degrees, and its colour is kept |
| Utils.ToUint16 | assets/js/utils.js:130 | storing in a Uint16Array keeps the value modulo 65536 |
| Utils.GenerateIndexes | assets/js/utils.js:124-133 | the index list has length 3·ceil(count/3) and entry k is k modulo 65536 |
| TireSprites.TirePositions | assets/js/gameobjects/tires.js:47-52 | positions 2 and 3 are positions 0 and 1 mirrored in x; back tires behind, front tires ahead |
| TireSprites.FrameFromAngleX | assets/js/gameobjects/tires.js:106-115 | the frame chosen from the horizontal angle is always in [0, 17] |
| TireSprites.HeightScaledFrame | assets/js/gameobjects/tires.js:117-119 | for a vertical angle in [−90, 90] the height scaling never increases the frame or makes it negative |
| TireSprites.SelectTireSprite | assets/js/gameobjects/tires.js:94-122 | the sprite mirrors iff the horizontal angle is beyond ±90, and its frame is in [0, 17] and at most the horizontal frame |
| TireSprites.FrameAtLandmarks | assets/js/gameobjects/tires.js:106-115 | 0° gives 17, 45° gives 8, ±90° and ±180° give 0, 179° gives 16 |
| TireSprites.FrameQuarterTurn | assets/js/gameobjects/tires.js:107-108 | on [0, 90] the frame is floor(17 − angle/90·17) |
| TireSprites.FrameSymmetricInSign | assets/js/gameobjects/tires.js:106-115 | an angle and its negation give the same frame |
| TireSprites.FrameSymmetricFrontBack | assets/js/gameobjects/tires.js:102-115 | an angle and 180 minus it give the same frame, with opposite mirroring except at 90 |
| TireSprites.FrameMonotone | assets/js/gameobjects/tires.js:107-108 | on [0, 90] the frame never increases with the angle |
| TireSprites.HeightScaledFrameEnds | assets/js/gameobjects/tires.js:117-119 | seen from straight above or below the frame is 0, and at level height it is unchanged |
| TireSprites.TireRotationStep | assets/js/gameobjects/tires.js:94-99 | the sprite rotation is a multiple of 8.5 within 4.25 of 180 − relZ |
| TireSprites.TireSheetWindows | assets/js/gameobjects/tires.js:24-30 | on the 17-frame 544×32 sheet frame i < 17 has offset (i/17, 0), and frame 17 wraps to offset (0, −1) |
| TireSprites.TireColor | assets/js/gameobjects/tires.js:133-138 | the colour is always one of the two tire colours |
| TireSprites.TireColorParity | assets/js/gameobjects/tires.js:133-138 | for speed > 0 it is the first colour iff floor(ms·speed/(3·821.25)) is even |
| TireSprites.Tires.constructor | assets/js/gameobjects/tires.js:46-59 | four tires at the position table, each showing frame 0 unmirrored |
| TireSprites.Tires.UpdateKartTireFrames | assets/js/gameobjects/tires.js:147-149 | each tire's window and rotation are those SelectTireSprite picks from its view |
| TireSprites.Tires.DoTireColorChange | assets/js/gameobjects/tires.js:125-141 | all four tires get the same colour, TireColor of the elapsed time and speed; their windows are untouched |
| TireSprites.Tires.Update | assets/js/gameobjects/tires.js:151-154 | frames from the views, then the colour for the speed |
| Smoke.SmokeSheetWindow | assets/js/gameobjects/smokeHolder.js:28-34 | the one-frame smoke sheet shows the whole texture |
| Smoke.IndexOf | assets/js/gameobjects/smokeHolder.js:114 | indexOf gives the first position holding the id, or −1 exactly when it is absent |
| Smoke.IndexOfDistinct | assets/js/gameobjects/smokeHolder.js:114 | with distinct ids, indexOf finds a smoke at its own position |
| Smoke.AnimateSmoke | assets/js/gameobjects/smokeHolder.js:119-137 | a step moves a smoke by (0.02·spread, 0.01, −0.02), turns it by −rotateSpeed degrees, and scales it to lerp(0.5, 1, elapsed/0.16), within [0.5, 1] over its lifetime; a spread from [−0.5, 0.5] moves it sideways by at most 0.01 |
| Smoke.AnimateScaleGrows | assets/js/gameobjects/smokeHolder.js:130-134 | an older smoke is drawn at least as large as a younger one |
| Smoke.Pass | assets/js/gameobjects/smokeHolder.js:107-138 | a pass never lengthens the list |
| Smoke.PassKeepsOrder | assets/js/gameobjects/smokeHolder.js:107-117 | the smokes after a pass are some of those before it, in the same order |
| Smoke.PassKeepsLive | assets/js/gameobjects/smokeHolder.js:113-117 | a smoke within its lifetime is never removed |
| Smoke.PassSkipsAfterRemoval | assets/js/gameobjects/smokeHolder.js:107-117 | the smoke right after a removed one is left exactly as it was, and survives even when expired |
| Smoke.PassRemovesExpired | assets/js/gameobjects/smokeHolder.js:113-117 | with distinct ids, an expired smoke at the position the pass visits is gone from the list afterwards |
| Smoke.PassSurvivors | assets/js/gameobjects/smokeHolder.js:106-139 | a smoke survives a pass exactly when the walk skips it (its predecessor was visited and spliced out) or visits it within its lifetime |
| Smoke.PassAnimatesAllLive | assets/js/gameobjects/smokeHolder.js:107-137 | with no smoke expired, every smoke is animated with the spread drawn at its own position |
| Smoke.SpawnPair | assets/js/gameobjects/smokeHolder.js:62-86 | the left then right smoke start at (±0.2835, 0.815, −0.833), unscaled, with one shared rotate speed |
| Smoke.PassNoNewSmokes | assets/js/gameobjects/smokeHolder.js:107-117 | a pass adds no smoke and keeps distinct smokes distinct |
| Smoke.SubsequenceDistinct | assets/js/gameobjects/smokeHolder.js:107-117 | a subsequence of distinct ids has distinct ids, all taken from the original |
| Smoke.SmokeHolder.constructor | assets/js/gameobjects/smokeHolder.js:9-40 | no smokes, spawn timer started now |
| Smoke.SmokeHolder.CreateSprite | assets/js/gameobjects/smokeHolder.js:42-54 | a new sprite with a fresh id, scaled to zero, rotation 0, its timer started now |
| Smoke.SmokeHolder.DoSmokeSpawning | assets/js/gameobjects/smokeHolder.js:56-99 | below 0.03 s nothing changes; otherwise the timer resets and exactly the SpawnPair is appended to the list and to the group's children, with rotate speed ±randomSpeed |
| Smoke.SmokeHolder.AnimateSmokes | assets/js/gameobjects/smokeHolder.js:106-139 | the forEach over the list's starting length, with in-place splices, leaves the list as Pass of the old one; the group's children follow the list |
| Smoke.SmokeHolder.VisitSmoke | assets/js/gameobjects/smokeHolder.js:107-138 | one callback of the forEach: the expired smoke is spliced out of list and group, a live one animated in place, and the walk so far still agrees with Pass |
| Smoke.SmokeHolder.Update | assets/js/gameobjects/smokeHolder.js:101-104 | spawn, then a Pass over the list including any new pair; the list grows by at most two and the next id advances by two exactly when a pair spawns |
| Smoke.PassStepRemove | assets/js/gameobjects/smokeHolder.js:113-117 | splicing out an expired smoke at the walk's index and moving to the next index agrees with Pass, which skips the smoke that moved up |
| Smoke.PassStepAnimate | assets/js/gameobjects/smokeHolder.js:119-137 | animating a live smoke in place and moving to the next index agrees with Pass |
| Smoke.RemovePreserves | assets/js/gameobjects/smokeHolder.js:114-115 | removing one smoke from the list and its id from the children keeps the two in step, with ids distinct and below the next id to issue |
| Smoke.AnimatePreserves | assets/js/gameobjects/smokeHolder.js:119-137 | animating a smoke in place keeps the ids, their distinctness and their bound |
| ObjFilter.Strip | assets/models/misc/turbo/remove-empty-faces.py:10 | str.strip leaves no whitespace at either end |
| ObjFilter.Split | assets/models/misc/turbo/remove-empty-faces.py:10 | str.split gives non-empty tokens |
| ObjFilter.ParseDecimalString | assets/models/misc/turbo/remove-empty-faces.py:13 | the decimal text of i reads back as i |
| ObjFilter.FacePrefixUnique | assets/models/misc/turbo/remove-empty-faces.py:13 | a line built from "f n/" starts with "f i/" iff i = n |
| ObjFilter.HasEmptyFacePrefix | assets/models/misc/turbo/remove-empty-faces.py:13 | the any(...) over 1..48 is true iff the line starts with "f i/" for such an i |
| ObjFilter.FaceLineDropped | assets/models/misc/turbo/remove-empty-faces.py:13 | the face line "f n/..." is dropped iff 1 ≤ n ≤ 48 |
| ObjFilter.EmptyFaceLineIsFace | assets/models/misc/turbo/remove-empty-faces.py:13 | every dropped face line starts with "f " |
| ObjFilter.LineDecision | assets/models/misc/turbo/remove-empty-faces.py:9-14 | a line fails iff it is a usemtl line with fewer than two tokens; otherwise it is kept iff Kept holds |
| ObjFilter.FilterGeometry | assets/models/misc/turbo/remove-empty-faces.py:7-14 | the loop's result is Filter of the lines |
| ObjFilter.FilterErrExtends | assets/models/misc/turbo/remove-empty-faces.py:10 | once a line raises, the whole run raises the same error |
| ObjFilter.FilterBySelects | assets/models/misc/turbo/remove-empty-faces.py:7-14 | the run succeeds iff no line fails, then gives the lines decided true, and a failed run carries a failing line's error |
| ObjFilter.FilterSelects | assets/models/misc/turbo/remove-empty-faces.py:7-14 | the script succeeds iff no line is a bare usemtl line, then writes exactly the kept lines; otherwise it fails with IndexError |
| ObjFilter.SelectBySubsequence | assets/models/misc/turbo/remove-empty-faces.py:7-14 | the selected lines are input lines, unchanged and in order, each decided true |
| ObjFilter.SelectSubsequence | assets/models/misc/turbo/remove-empty-faces.py:7-14 | the output is an order-preserving subsequence of the input and every output line is kept |
| ObjFilter.SubsequenceOfPrefix | assets/models/misc/turbo/remove-empty-faces.py:12-14 | appending one input line keeps the output a subsequence whether or not the line is kept |
| ObjFilter.SubsequenceDrop | assets/models/misc/turbo/remove-empty-faces.py:7-14 | dropping the last line of a subsequence keeps it a subsequence |
| ObjFilter.SelectAppend | assets/models/misc/turbo/remove-empty-faces.py:8-14 | filtering two runs of lines gives the two outputs concatenated: each line is decided from its own text |
| ObjFilter.KeptDoesNotRaise | assets/models/misc/turbo/remove-empty-faces.py:9-12 | a kept line never raises |
| ObjFilter.FilterIdempotent | assets/models/misc/turbo/remove-empty-faces.py:7-14 | filtering the output again gives the same output |
| ObjFilter.SelectByAllTrue | assets/models/misc/turbo/remove-empty-faces.py:7-14 | when every line is decided true, the run keeps them all |
| ObjFilter.SingleLine | assets/models/misc/turbo/remove-empty-faces.py:9-14 | a usemtl line is kept iff its material is not excluded; any other line is dropped iff it is a face line with index 1 to 48; a bare usemtl raises |
| ObjFilter.SplitWord | assets/models/misc/turbo/remove-empty-faces.py:10 | str.split on a word without whitespace gives that word alone |
| ObjFilter.StripWordLine | assets/models/misc/turbo/remove-empty-faces.py:10 | str.strip of a word followed by a newline gives the word |
| ObjFilter.BareUsemtl | assets/models/misc/turbo/remove-empty-faces.py:10 | the line "usemtl" on its own stops the script with IndexError |

## Left out

- Physics engine calls are not modelled: `initializePhysics`, the ground
  ray cast, impulse application and the linear velocity. The ray's
  answer and the velocity are inputs to `ComputePhysics`, which returns the
  impulse and damping it would apply.
- Trigonometry, quaternions and `degToRad` are not modelled: the impulse's
  rotation by the heading, the lean written to the model's rotation, and
  the camera-angle computation in `changeTireSpriteBasedOnCamera`. The
  angles are inputs.
- Audio play and stop, asset and model loading, scene-graph adds
  (`addKartModel`, `addShadowPlane`, `addSoundEmitters`), the GUI, debug
  drawing and rendering are left out; only the detune formula is kept.
- `CustomTimer` is a clock reading: every timer a frame reads sees the same
  `now`, and `update`/`getElapsed` become `now` minus the timer's start.
- Random values (`randInt`, `Math.random`, `randFloat`) are parameters, and
  only their ranges are stated: `randomSpeed` in {1, 2}, the coin in
  [0, 1), and every spread in [−0.5, 0.5] (`Smoke.SpreadsInRange`).
  `spreads[i]` is the spread drawn when `forEach` visits position i.
- Smoke sprites are values with an id, not shared objects, and the group's
  children are their ids. Each smoke's own timer is its start time.
- The smoke texture window is the same for every frame (lemma
  `Smoke.SmokeSheetWindow`), so the per-step `setSpriteFrame` call keeps
  only its rotation.
- The smoke routines and tire routines duplicated in assets/js/main.js
  (`doSmokeLogic`, `trySmokeSpawning`, `changeTireSpriteBasedOnCamera`,
  `changeTireColor`) are not modelled separately; the component versions
  are. Its helpers `reverseNumber`, `normalizeToMax`, `scaleValue` and
  `closestStepValue` have the same bodies as those in assets/js/utils.js
  and are modelled once, in `Utils`.
- The debug and camera keys of the legacy `onKeyDown` ("w", "z", "x") only
  touch debug drawing and camera controls and are left out.
- assets/js/gameobjects/smoke.js (unused), the root main.js prototype and
  the jump, coyote, gravity, slide-charge and turbo-reserve constants,
  which nothing reads, are not part of this model.
- The `os.walk` directory walk and the file read and write of the Python
  script are left out; a file is its list of lines.
- IEEE-754 rounding is not modelled: numbers are exact reals. At speed 0
  the tire colour's frame duration is Infinity in JavaScript and the colour
  is the first one; the model defines it that way, and the parity lemma
  requires speed > 0.
- Utils.NormalizeToMax: requires a nonzero maximum. With a zero maximum,
  JavaScript gives ±Infinity or NaN, which exact reals cannot represent,
  and no code in the model divides by a zero maximum.
- Utils.ScaleValue: requires a nonzero maximum, for the same reason.
- Vehicle.Kart.DoModelRotation: the ±30 bound is stated for dt ≥ 0 and a
  steer direction in [−1, 1], because a negative time step can push the
  lean past the clamp through the idle adjustment.
- Vehicle.Kart.Update: requires dt ≥ 0 for its invariant, because the lean
  bound needs it; a frame timer never yields a negative delta.
- Turbo.TurboExhaust.constructor: both exhaust groups start hidden, and
  nothing in the component code shows them again, so the flipbook animates
  frames of two hidden groups. The model keeps the two group flags, and
  NextTurboFrame and Update leave them as they were. The rendering that
  would hide the frames is not modelled.
- Smoke.SmokeHolder.DoSmokeSpawning: requires randomSpeed in {1, 2} and the
  coin in [0, 1), the ranges of the draws it stands for.
