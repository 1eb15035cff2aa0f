# FlepBerd game loop and utilities, modelled in Dafny

FlepBerd is a Flappy Bird clone written against raylib. This project models two parts of it:

- **The gameplay state machine of `game/src/game.cpp`** (module `Game`, with value types and pure rules in module `Rules`).
  - The program's globals become the fields of the class `Game.GameState`: bird position, velocity and angle, score, alive flag, space latch, generation flag, current screen, and the fixed array of five pipe pairs.
  - Each routine that changes them becomes a method that updates them in place. These are `ResetGameLoop`, `TriggerDeath`, `MaintainPipesInBounds` and `CheckForCollisions`, plus the three parts of `main`'s loop: the title transition, the first pipe generation and the live physics step.
  - Every raylib query becomes a parameter: frame time, screen size, random pipe heights, and the key state.
  - Every `PlaySound` call appends the sound to a ghost log, so the death, point and milestone sound rules can be stated exactly.
  - A whole frame is also a function on a value of the globals (`Rules.Globals`): `Rules.FrameNext`, built from `PlayNext`, `AliveNext`, `LandNext` and `SweepNext`. The frame methods of the class are proved to move the fields exactly as these functions say, and lemmas state what the functions promise.
- **The helpers of `game/src/dev_utils.cpp`** (module `DevUtils`).
  - `clamp`.
  - The fixed-length string splitter `SplitString`, specified by the function `Split` and proved to cut the string into pieces that concatenate back to it.
  - `HexToChar`.
  - The colour parser `HexCode`, including the three colour constants the game builds with it.

The code is followed as written in three places:

- **The lower pipe's height.** It is the screen height less the upper height *plus* the portal gap, so the lower pipe reaches 200 below the screen.
- **The lower pipe's direction tag.** It is `UPPER`.
- **Repeated deaths.** `TriggerDeath` (game/src/game.cpp:145-148) has no guard. A bird that overlaps two pipes, or the ground and a pipe, in one frame logs one death sound per trigger (`Rules.SweepDeathSounds`, `Rules.AliveNextDeath`).

`CheckCollisionRecs` belongs to raylib, which is not part of this model. It is reproduced as raylib's strict axis-aligned overlap test.

## Model

| member | source | states |
|---|---|---|
| DevUtils.Clamp | game/src/dev_utils.cpp:6-9 | with `min <= max` the result lies in `[min, max]`; it is `d` inside the range, `min` below it and `max` above it; with `max < min` the result is `max` |
| DevUtils.ClampIdempotent | game/src/dev_utils.cpp:6-9 | clamping twice with the same bounds equals clamping once |
| DevUtils.ClampMonotone | game/src/dev_utils.cpp:6-9 | clamp preserves the order of its input |
| DevUtils.ClampIsMaxOfMin | game/src/dev_utils.cpp:6-9 | with ordered bounds, clamp equals `max(min, min(d, max))` |
| DevUtils.Split | game/src/dev_utils.cpp:13-25 | a split has `len / n` pieces, plus one more when `len % n != 0`, where `len` is the length of `str` |
| DevUtils.SplitString | game/src/dev_utils.cpp:11-29 | the counting loop, which pushes `substr(i * n, n)`, followed by the leftover piece returns exactly `Split(str, n)` |
| DevUtils.SplitFlatten | game/src/dev_utils.cpp:11-29 | the pieces concatenate back to the input string |
| DevUtils.SplitCount | game/src/dev_utils.cpp:13-25 | there are `ceil(len / n)` pieces for a string of length `len`, and none for the empty string |
| DevUtils.SplitPieces | game/src/dev_utils.cpp:16-25 | piece `k` is `str.substr(k * n, n)`; every piece but the last is `n` long; the last is 1 to `n` long |
| DevUtils.HexToChar | game/src/dev_utils.cpp:31-37 | on one or two hex digits of either case, the byte is the numeral's value |
| DevUtils.HexToCharRoundTrip | game/src/dev_utils.cpp:31-37 | printing a byte as two hex digits and parsing them back gives the byte |
| DevUtils.SplitInPairs | game/src/dev_utils.cpp:41-47 | a pair split has 3 pieces exactly for 5 or 6 characters and 4 pieces exactly for 7 or 8, and those pieces are the successive pairs with a possibly short last one |
| DevUtils.HexColor | game/src/dev_utils.cpp:39-51 | with 5 or 6 characters after the first, the channels are the values of the successive digit pairs (the last possibly a single digit) and alpha is 0xff; with 7 or 8, all four channels are read that way; with any other count the colour is all zeros |
| DevUtils.HexCode | game/src/dev_utils.cpp:39-51 | drops the first character and returns `HexColor`: three channels with alpha 0xff for 3 pieces, four channels for 4 pieces, all zeros otherwise |
| DevUtils.HexColorRoundTrip | game/src/dev_utils.cpp:45-47 | `"#"` followed by four printed bytes parses to exactly those four channels |
| DevUtils.HexColorOpaqueRoundTrip | game/src/dev_utils.cpp:42-44 | `"#"` followed by three printed bytes parses to those channels with alpha 0xff |
| DevUtils.HexColorOtherLengths | game/src/dev_utils.cpp:48-50 | a string whose remainder is not 5 to 8 characters long gives the all-zero colour |
| DevUtils.BirdColor | game/src/game.cpp:94 | `"#f5c542"` is the colour (0xf5, 0xc5, 0x42, 0xff) |
| DevUtils.PipeColor | game/src/game.cpp:95 | `"#2fc258"` is the colour (0x2f, 0xc2, 0x58, 0xff) |
| DevUtils.GameOverTextColor | game/src/game.cpp:96 | `"#000000"` is opaque black |
| Rules.GeneratePipePair | game/src/game.cpp:57-86 | a fresh pair is aligned at the right edge `W`, its upper pipe hangs from the top with the random height `r`, the portal directly under it is exactly `30 x 100` at `(W, r)`, and its point is not collected |
| Rules.GeneratedPairLayout | game/src/game.cpp:57-86 | for random height `r`: the upper pipe is at `(W, 0)` with size `(30, r)`; the lower pipe is at `(W, r + 100)` with height `H - r + 100`, reaching to `H + 200`; both are tagged UPPER; the portal is `30 x 100` at `(W, r)`; no point is collected yet |
| Rules.GeneratedRectsDisjoint | game/src/game.cpp:57-86 | at any x, the upper pipe, the portal and the lower pipe of a generated pair do not overlap one another |
| Rules.PortalBetweenPipes | game/src/game.cpp:170-173 | for an aligned pair whose upper pipe hangs from the top, the portal rectangle is the pipes' column from the bottom of the upper pipe's rectangle to the top of the lower pipe's; the bird's hitbox is 10 by 10 at the bird's position |
| Rules.PortalHitIff | game/src/game.cpp:170-177 | with the 10x10 hitbox, a fresh generated pair scores exactly when the hitbox overlaps the pipe column and the gap rows `(r, r + 100)` |
| Rules.PortalOnScreen | game/src/game.cpp:58 | for a height from `GetRandomValue(20, H * 0.6)` and a screen at least 250 tall, the portal lies on screen, below a visible upper pipe |
| Rules.TruncateToInt | game/src/game.cpp:58 | converting a floating value to `int` truncates toward zero: the result is the integer part, within one of the value and never farther from zero |
| Rules.Scrolled | game/src/game.cpp:150-164 | after scrolling, both pipes of a pair share one x; scrolling never raises the points flag; the new x is either the old upper x less `200 * dt` or the recycling offset `W + 200 - 30` |
| Rules.ScrolledInBounds | game/src/game.cpp:154-158 | a pair still in bounds moves to the old upper x less `200 * dt`; nothing else changes, including the points flag |
| Rules.ScrolledRecycles | game/src/game.cpp:156-163 | a pair past the left edge is replaced by a fresh pair at `W + 200 - 30`, with its point available again |
| Rules.InitialPipes | game/src/game.cpp:245-257 | five pairs; pair `k` is aligned at `W + 200 * k`, has upper height `heights[k]` and its point available |
| Rules.InitialPipesOrdered | game/src/game.cpp:245-257 | in the first generation, slot `k` stands at `W + 200 * k`; the slots are strictly increasing in x, aligned and unscored |
| Rules.Milestone | game/src/game.cpp:186-197 | a scoring event plays at most one milestone sound |
| Rules.MilestoneChoice | game/src/game.cpp:186-197 | combo100 exactly when `points % 100 == 0`; combo50 exactly when divisible by 50 and not 100; combo10 exactly when divisible by 10 and not 50; silence exactly when not divisible by 10 |
| Rules.MilestoneIsFirstMatch | game/src/game.cpp:186-197 | the chain of modulus tests is the first-match lookup in the table 100, 50, 10 |
| Rules.Marked | game/src/game.cpp:182-183 | a check changes only the points flag, and the flag is up afterwards exactly when it was up or the pair scored |
| Rules.MarkedScoresNoMore | game/src/game.cpp:182-184 | a checked pair cannot score again from the same position, and a pair that scored cannot score again from any position |
| Rules.SweepScoresOnce | game/src/game.cpp:182-184 | checking the pairs a second time, with the flags the first check left and the bird in the same place, scores nothing |
| Rules.CollisionPointSound | game/src/game.cpp:182-185 | one check logs exactly one point sound when the pair scores and none otherwise |
| Rules.SweepPointSounds | game/src/game.cpp:294-297 | over the pipe loop, the point sounds logged equal the points gained |
| Rules.CollisionDeathSounds | game/src/game.cpp:179-180 | one check logs one death sound per overlapped pipe, and no other death sound |
| Rules.SweepDeathSounds | game/src/game.cpp:294-297 | over the pipe loop, the death sounds logged equal the number of overlapped pipes |
| Rules.HitCountPositive | game/src/game.cpp:179-180 | the overlap count is positive exactly when some pipe is overlapped |
| Rules.AnyHitIff | game/src/game.cpp:294-297 | `AnyHit` holds exactly when some checked pair has an overlapped pipe |
| Rules.SweepLogExtends | game/src/game.cpp:294-297 | the pipe loop only appends to the sound log |
| Rules.ClampAngle | game/src/game.cpp:269 | the stored angle lies in `[-45, 85]`, and an angle already in range is kept |
| Rules.StepBird | game/src/game.cpp:269-288 | after a live step: angle in `[-45, 85]` and `y` in `[0, 450]`; velocity at most one flap below the clamp range (inside it without a flap or at the roof); a flap happens exactly when space is down and not latched |
| Rules.Steer | game/src/game.cpp:273-288 | the height is kept; a flap happens exactly when space is down and not latched, and snaps the angle to -45; the latch is up afterwards exactly when space was latched or down and was not released; at the roof the velocity is 500, otherwise a flap lowers it by 1750 |
| Rules.FlapAfterClamp | game/src/game.cpp:270-275 | a flap snaps the angle to -45; away from the roof it leaves the velocity at the clamped velocity less 1750, below -250 |
| Rules.SpaceLatch | game/src/game.cpp:273-283 | the latch is set by a flap or kept, and cleared by a release; a latched space never flaps |
| Rules.RoofBounce | game/src/game.cpp:286-288 | at `y == 0` the velocity is 500, overriding a flap in the same frame |
| Rules.AngleWithoutFlap | game/src/game.cpp:266-271 | without a flap, the angle is the increased angle clamped to its range; a height already in range is kept |
| Rules.LiveLogCounts | game/src/game.cpp:273-291 | the flap and ground sounds of a frame add no point sound, add one death sound exactly for a landing, and only append to the log |
| Rules.LiveFrameSounds | game/src/game.cpp:273-297 | over a live frame the point sounds logged equal the points gained, the death sounds logged equal the landing plus the overlapped pipes, and the old log is kept as a prefix |
| Rules.AliveNextScore | game/src/game.cpp:262-298 | a live frame raises the score by 0 to 5, logs one point sound per point gained, only appends to the log, and leaves the screen and the generation flag alone |
| Rules.AliveNextDeath | game/src/game.cpp:262-298 | a live frame leaves the bird alive exactly when it is not on the ground (`y == H`) and overlaps no pipe of the scrolled slots; it logs one death sound for the landing and one per overlapped pipe |
| Rules.PlayNextAlive | game/src/game.cpp:243-298 | with a live bird, a gameplay frame first puts the first generation in place if it is due, then is a live frame on those slots; generation is off afterwards; the score rises by at most 5 and the log is only extended |
| Rules.PlayNextDead | game/src/game.cpp:243-303 | with a dead bird no sound is logged and the angle, latch and screen are kept; space resets the bird to (400, 225) at rest, score 0, alive, five value-initialised slots and generation due; without space only a due generation changes anything |
| Rules.FrameScreens | game/src/game.cpp:237-304 | on the title screen a frame changes only the screen, to gameplay exactly when space is down; in gameplay the frame is `PlayNext` and stays in gameplay |
| Game.GameState.constructor | game/src/game.cpp:16-106 | the initial globals: bird at rest at (400, 225), angle 0, score 0, alive, pipes due, title screen, all five slots value-initialised |
| Game.GameState.ResetGameLoop | game/src/game.cpp:132-143 | bird at (400, 225) and at rest; score 0; all five slots value-initialised; alive; generation due; angle, latch and screen untouched |
| Game.GameState.TriggerDeath | game/src/game.cpp:145-148 | the bird is dead and exactly one death sound is appended |
| Game.GameState.MaintainPipesInBounds | game/src/game.cpp:150-164 | slot `i` becomes `Scrolled` of its old pair; no other slot changes; the pair is aligned |
| Game.GameState.CheckForCollisions | game/src/game.cpp:166-199 | alive afterwards exactly when alive before and neither pipe is overlapped; at most one point, and only when the flag was down; the flag rises with a portal overlap; the log gains a death sound per hit, then the point sound and the milestone sound of the new score; no other slot changes |
| Game.GameState.PlayMilestone | game/src/game.cpp:185-197 | appends the milestone sound of the current score, if any |
| Game.GameState.AdvanceSlot | game/src/game.cpp:294-297 | one turn of the pipe loop: slot `i` is scrolled and then checked; the other slots are unchanged |
| Game.GameState.GenerateInitialPipes | game/src/game.cpp:243-259 | the slots become `InitialPipes` of the five random heights, and generation is switched off |
| Game.GameState.LeaveTitle | game/src/game.cpp:237-241 | space switches the title screen to gameplay |
| Game.GameState.MoveBird | game/src/game.cpp:263-288 | the bird's fields become `StepBird` of the values after gravity and integration; a flap sound is logged exactly when it flaps |
| Game.GameState.Fall | game/src/game.cpp:263-271 | gravity, integration and the angle increase, followed by the three clamps |
| Game.GameState.Steer | game/src/game.cpp:273-288 | the flap, the latch release and the roof bounce, with a flap sound logged on a flap |
| Game.GameState.SweepSlots | game/src/game.cpp:294-297 | every slot holds its scrolled pair, marked; the score rises by the pairs that scored; alive afterwards exactly when alive before and no pipe was hit; the log is the sweep's sounds in slot order |
| Game.GameState.SweepPipes | game/src/game.cpp:293-297 | the globals become `SweepNext` of the old globals, whose score and sound laws are `Rules.SweepPointSounds`, `Rules.SweepDeathSounds` and `Rules.AnyHitIff`; the class invariant is kept |
| Game.GameState.LandBird | game/src/game.cpp:263-291 | the globals become `LandNext` of the old globals: the bird step of `MoveBird`, then a live bird at `y == H` dies with one death sound; the class invariant is kept |
| Game.GameState.AliveStep | game/src/game.cpp:262-298 | the globals become `AliveNext` of the old globals (`Rules.AliveNextScore`, `Rules.AliveNextDeath`); the class invariant is kept |
| Game.GameState.PlayFrame | game/src/game.cpp:243-303 | the globals become `PlayNext` of the old globals (`Rules.PlayNextAlive`, `Rules.PlayNextDead`); the class invariant is kept |
| Game.GameState.Frame | game/src/game.cpp:237-304 | the globals become `FrameNext` of the old globals (`Rules.FrameScreens`); the class invariant is kept |

## Left out

- Rendering (`DrawTitleScreen`, `DrawGameplayScreen`, the score text) and window and audio set-up and tear-down. They are draw and device calls into raylib.
- Resource loading (`SetupResources` and `game/src/ResourceRegister.cpp`). These are loaders over rres and raylib files; `ResourceRegister` is not part of this model.
- The `WindowShouldClose` loop itself. One pass of it is `Game.GameState.Frame`.
- The flap sound's pitch. Only the fact that the flap sound played is logged.
- IEEE floating point. Positions, velocities and the frame time are reals, so rounding is not modelled.
- `Game.GameState.MoveBird` takes the angle increase as an integer parameter. It does not model how `bird_angle += 100 * GetFrameTime()` truncates the double back to `int`.
- `GetRandomValue` is a parameter. Initial generation draws one height per slot; recycling draws one height per slot for the slots that need it.
- `DevUtils.HexToChar` requires one or two hex digits. Non-hex and `0x`-prefixed input depend on `std::stringstream` failure behaviour.
- `DevUtils.HexCode` requires a non-empty string, because erasing the first character of an empty string is undefined. It also requires hex digits wherever `HexToChar` is applied.
- DevUtils.SplitString: the C++ `std::string` is a sequence of bytes, while the model splits a sequence of characters. The two agree on ASCII text, and the game only splits ASCII colour literals; a multi-byte UTF-8 character would be cut in the source and kept whole here.
- DevUtils.HexCode: the same byte/character difference. The source's `erase(begin())` drops one byte, the model one character, so they agree on ASCII input only; the game passes only the ASCII literals `"#f5c542"`, `"#2fc258"` and `"#000000"`.
- DevUtils.SplitString: requires `splitLength > 0`, so zero and negative lengths are not modelled. Zero divides by zero. A negative length is converted to a huge unsigned value in `str.length() / splitLength`, so the source returns `[str]` (nothing for an empty string). The only caller passes 2.
- The global `points_lock` is declared but never used, so it has no field.
- The score is an unbounded integer. The source's `int points` is 32 bits wide, so `points++` could in principle overflow; reaching that would take over two billion points.
- `CheckCollisionRecs` is raylib's function, reproduced as the strict overlap test. Its source is not part of this model.
