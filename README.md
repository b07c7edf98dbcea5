# Plane and bullets: a verified model of the game core

This project models the core of a small Swing arcade game. A plane flies left to right across an
800 x 600 field, and bullets come in from the right edge. Three difficulties (EASY, MEDIUM, HARD)
change the plane's drift speed, the spawn rate, the bullet speed and the score per tick. Reaching
500 points on EASY or 1000 on MEDIUM completes the level. Best scores per difficulty are kept in a
`NAME:score` text file.

The model follows the three source files:

- `src/Game.java` is modelled by the class `GameModel.Game`, whose fields are the panel's fields.
  - `Tick` is the timer callback `actionPerformed`. It calls `UpdatePlane`, `UpdateBullets`,
    `CheckCollisions`, `SpawnBullets` and `CheckLevelProgression` on the live plane and the live
    bullet list.
  - `KeyPressed`, `HandleMouseClick`, `FocusLost` and `ExplosionTimerFires` are the Swing event
    handlers.
  - The pure parts are functions in their own modules:
    - `Difficulties`: the difficulty tables;
    - `Geometry`: `java.awt.Rectangle` intersects and contains;
    - `Motion`: the plane's motion arithmetic;
    - `JavaText`: `String.split`, `Integer.parseInt` and `Integer.toString`;
    - `HighScores`: the high-score table and its file format.
- `src/Plane.java` is the class `Planes.Plane`, with its setters.
- `src/Bullet.java` is the class `Bullets.Bullet`, with `Update` moving it in place.

Each step of a tick is a method proved against a specification on values, in module `Ticks`:

- A `Frame` holds what a tick reads or writes: the panel's fields, the plane's position and
  speed (`Motion.PlaneState`) and every bullet as a `Shot` (position, image size, speed).
- There is one function per phase of `actionPerformed`: `Moved` (updatePlane, updateBullets),
  `Collided`/`Ended` (checkCollisions), `Spawned`, `Scored` and `Progressed`
  (checkLevelProgression). `Ticked` composes them in the source's order.
- `Kept` is the in-place filter of the bullet list, and `AnyHit` is the collision scan.
- Each method of `GameModel.Game` ensures `View() == Phase(old(View()))`. `View()` reads the
  live fields, plane and bullets into a `Frame`. `Tick` itself ensures
  `View() == Ticked(old(View()), …)` whenever the game is running. It also says which bullet
  objects remain: the survivors of the move, in order, then the fresh spawned one.
- The lemmas `TickShots`, `TickHit`, `TickScores`, `TickKeepsSettings`, `TickKeepsConsistent`
  and `TickHighScoresGrow` state what one tick does:
  - every bullet moves by its speed and the off-screen ones go;
  - exactly one bullet spawns at the right edge when the roll is below the spawn rate;
  - a hit exactly when an on-screen moved bullet overlaps the moved plane, which then explodes
    and starts the explosion and its timer;
  - the score rises by the multiplier;
  - the recorded and high scores are updated on a hit or at the threshold;
  - high scores never decrease.
- `Motion.Step` specifies the plane update phase by phase.
- `HighScores.MaxUpdate` and `HighScores.FormatTable` specify the high-score update and the
  file written.

The screen logic is a `Screen` value computed from the flags, in the order the Java handlers test
them. Each key or click is stated as the menu row it selects, with every field the handlers may
touch pinned in a `Status` value. So a key and a click on the same row provably leave the same
state (`MenuDone`).

Some behaviour of the code is worth stating outright:

- **Both flags can be set in one tick.** A collision does not end the tick: spawning, the score
  increment and the progression check still run. So one tick can set both `gameOver` and
  `levelCompleted`, and `Ticks.Ticked` allows it. `CurrentScreen` then routes input to the
  level-completed menu while the explosion is still shown, as `keyPressed` and
  `handleMouseClick` do.
- **The saved score lags the displayed one.** The score written to the file at a collision is the
  score before that tick's increment (`Ticks.TickHit`). The displayed score ends one multiplier
  higher (`Ticks.TickScores`).
- **A reset does not stop the explosion timer.** `resetGame` leaves the explosion timer running.
  Its later firing only clears `showingExplosion` again, which is harmless.
- **The pause flag survives a reset.** `resetGame` does not clear `isPaused`. ESC on the pause
  menu followed by ENTER on the level-select screen therefore starts a paused game.
- **`Bullet.setVelocityX` is missing.** `Game.java` calls it at line 484, but `Bullet.java` does
  not define it. The model gives `Bullet` a mutable `velocityX` (default -8) and the setter
  `SetVelocityX`.
- **The right-edge wrap only fires for narrow planes.** The wrap to (0, HEIGHT / 2) needs a plane
  narrower than its drift. For a plane at least as wide as its auto-scroll speed, the clamp
  already keeps it from passing the edge (`Motion.Step`'s fifth `ensures`). `NarrowPlaneWraps`
  exhibits the wrap with a 1-pixel plane.

## Model

| member | source | states |
|---|---|---|
| Geometry.Intersects | src/Game.java:494 | `Rectangle.intersects` holds exactly when some pixel lies in both rectangles, the reference definition |
| Geometry.OverlapCorner | src/Game.java:494 | the corner of the overlap lies in both rectangles whenever the interval test holds |
| Geometry.OverlapIffCommonPoint | src/Game.java:494 | the interval test java.awt performs (both non-empty, strict overlap on each axis) is the same as sharing a pixel |
| Geometry.Contains | src/Game.java:875 | `Rectangle.contains(point)` is never true of an empty rectangle |
| Geometry.IntersectsSymmetric | src/Game.java:494 | the plane/bullet test does not depend on argument order |
| Geometry.EdgeContactIsNoHit | src/Game.java:494 | rectangles that only touch along an edge do not collide |
| Geometry.ContainsIffUnitIntersects | src/Game.java:875 | `Rectangle.contains(point)` is intersection with the 1x1 rectangle at the point |
| Difficulties.Values | src/Game.java:52-54 | `Difficulty.values()` lists three difficulties |
| Difficulties.Ordinal | src/Game.java:52-54 | every difficulty sits at its ordinal in `values()` |
| Difficulties.Name | src/Game.java:1055 | a difficulty is written as an upper-case name of at least four letters, so it never contains the file's separator |
| Difficulties.ValueOf | src/Game.java:1036 | `Difficulty.valueOf` only accepts the exact name of the difficulty it returns |
| Difficulties.ValueOfName | src/Game.java:1036 | `valueOf` reads back every name that `toString` writes |
| Difficulties.AutoSpeedX | src/Game.java:185-200 | the auto-scroll speed is 2, 3 or 4 (ordinal + 2) |
| Difficulties.MaxVelocity | src/Game.java:185-200 | the velocity cap is 5, 6 or 7 (ordinal + 5) |
| Difficulties.ScoreMultiplier | src/Game.java:370-377 | a tick scores 1, 2 or 3 (ordinal + 1) |
| Difficulties.SpawnRate | src/Game.java:461-477 | the spawn rate is a percentage strictly between 0 and 100 |
| Difficulties.BulletSpeed | src/Game.java:461-477 | spawned bullets always move left |
| Difficulties.Next | src/Game.java:1001-1012 | the next level is one ordinal up, and HARD stays HARD |
| Difficulties.CompletionThreshold | src/Game.java:381-388 | EASY and MEDIUM complete at 500 and 1000 (500 times the next ordinal); HARD has no threshold |
| Difficulties.LevelReached | src/Game.java:381-388 | a score completes the level exactly when there is a next level and the score reaches 500 times its ordinal |
| Difficulties.HarderIsHarder | src/Game.java:63-76 | a harder level has no lower drift, cap, score rate or spawn rate, and no slower bullets |
| Difficulties.HardNeverCompletes | src/Game.java:379-390 | no score completes a HARD game |
| JavaText.SplitAll | src/Game.java:1033 | splitting yields at least one piece |
| JavaText.SplitAllJoins | src/Game.java:1033 | the pieces contain no separator, and joining them with it gives the line back |
| JavaText.DropTrailingEmpty | src/Game.java:1033 | only trailing empty pieces are dropped, the rest keep their order, and the result does not end empty |
| JavaText.JavaSplit | src/Game.java:1033 | `split(":")` gives pieces free of the separator; a line without it is its own single piece; once split, the last piece is never empty |
| JavaText.SplitAllNoSep | src/Game.java:1033 | a string without the separator is one piece |
| JavaText.SplitAllFirstSep | src/Game.java:1033 | the text before the first separator is the first piece |
| JavaText.JavaSplitPair | src/Game.java:1033 | `a:b` splits into exactly `[a, b]` when neither contains ':' and b is non-empty |
| JavaText.JavaSplitPairTrailing | src/Game.java:1033 | `a:b:` also splits into `[a, b]`, because split drops the trailing empty piece |
| JavaText.JavaSplitTriple | src/Game.java:1033 | `a:b:c` splits into three pieces |
| JavaText.DigitChar | src/Game.java:1055 | the digit character of d has value d |
| JavaText.Digits | src/Game.java:1055 | a natural is written as a non-empty run of digits without a leading zero |
| JavaText.DigitsValueOfDigits | src/Game.java:1055 | reading the digits written for n gives n |
| JavaText.IntToString | src/Game.java:1055 | `Integer.toString` gives a non-empty string |
| JavaText.ParseInt | src/Game.java:1037 | `Integer.parseInt` succeeds only on a non-empty string and with a 32-bit value |
| JavaText.ParseIntToString | src/Game.java:1037 | `parseInt` reads back every 32-bit int that `toString` writes |
| JavaText.IntToStringHasNoColon | src/Game.java:1055 | a written score contains no ':', so the line splits on its one separator |
| JavaText.ParseIntRejectsOverflow | src/Game.java:1037-1039 | a score one past the 32-bit maximum is rejected and the line is skipped |
| Motion.TruncateToInt | src/Game.java:396-397 | the `(int)` cast rounds toward zero: it stays within 1 of the value, on the zero side |
| Motion.Decelerate | src/Game.java:399-410 | deceleration keeps the sign and shrinks the speed by 0.1, stopping at 0 |
| Motion.Clamp | src/Game.java:412-426 | the clamp fires exactly when the position is out of [0, hi]; it then moves to an end, otherwise leaves it |
| Motion.Step | src/Game.java:392-436 | updatePlane never speeds the plane up; it keeps x within the field plus one drift and y within the field, zeroes the velocity of a clamped axis, wraps to (0, HEIGHT / 2) when the drift passes the right edge, and never wraps a plane at least as wide as its drift |
| Motion.RestingPlaneDrifts | src/Game.java:428-429 | a plane at rest inside the field only drifts right by the auto speed |
| Motion.NarrowPlaneWraps | src/Game.java:431-435 | the wrap is reachable: a 1-pixel plane at x = 799 wraps to (0, 300) |
| Motion.ThrustNegative | src/Game.java:1112-1119 | UP/LEFT subtract the acceleration, but never below -maxVelocity |
| Motion.ThrustPositive | src/Game.java:1112-1119 | DOWN/RIGHT add the acceleration, but never above maxVelocity |
| Bullets.Bullet.constructor | src/Bullet.java:9-14 | a new bullet has the given position and the image's size, and moves at -8 |
| Bullets.Bullet.Update | src/Bullet.java:16-19 | one update moves the bullet by its velocity |
| Bullets.Bullet.SetVelocityX | src/Game.java:484 | the setter stores the given speed |
| Bullets.Bullet.Bounds | src/Bullet.java:26-29 | the bounds are non-empty exactly when the image is |
| Bullets.PositionAfterClosedForm | src/Bullet.java:16-19 | n updates move a bullet by n times its velocity |
| Bullets.DefaultVelocityMovesLeft | src/Bullet.java:13-18 | at the default velocity, each update moves x 8 to the left |
| Planes.Plane.constructor | src/Plane.java:10-17 | a new plane is at the given position with zero velocity and not exploding |
| Planes.Plane.Bounds | src/Plane.java:24-27 | the bounds are non-empty exactly when the image is |
| Planes.Plane.SetX | src/Plane.java:34-36 | sets x, nothing else |
| Planes.Plane.SetY | src/Plane.java:42-44 | sets y, nothing else |
| Planes.Plane.SetVelocityX | src/Plane.java:50-52 | sets the horizontal velocity, nothing else |
| Planes.Plane.SetVelocityY | src/Plane.java:58-60 | sets the vertical velocity, nothing else |
| Planes.Plane.SetExploding | src/Plane.java:74-76 | sets the exploding flag, nothing else |
| HighScores.Defaults | src/Game.java:1022-1025 | loading starts from every difficulty at 0 |
| HighScores.MaxUpdate | src/Game.java:1014-1019 | after updateHighScore, the stored score (default 0) is the larger of the old one and the new one |
| HighScores.MaxUpdateKeepsOthers | src/Game.java:1014-1019 | the other difficulties' entries are untouched |
| HighScores.MaxUpdateIdempotent | src/Game.java:1014-1019 | recording the same score twice is the same as recording it once |
| HighScores.MaxUpdateMonotone | src/Game.java:1014-1019 | no high score ever decreases, and a complete table stays complete |
| HighScores.FormatLine | src/Game.java:1055 | a written line splits on ':' into exactly the difficulty's name and the score's decimal text |
| HighScores.FormatTable | src/Game.java:1054-1056 | saveHighScores writes one line per entry |
| HighScores.ParseLine | src/Game.java:1033-1042 | a line is accepted only if it splits into exactly two parts, names the difficulty returned, and has a 32-bit score |
| HighScores.ApplyLines | src/Game.java:1032-1043 | reading lines never removes an entry from the table |
| HighScores.LoadTable | src/Game.java:1021-1049 | loadHighScores always yields a table with all three difficulties |
| HighScores.ParseScoreLines | src/Game.java:1032-1043 | the reading loop computes the same table as the line-by-line fold from the defaults |
| HighScores.FormatLineParses | src/Game.java:1033-1055 | each written line is read back as the same entry |
| HighScores.SaveLoadRoundTrip | src/Game.java:1021-1061 | loading the file saved for a complete table of 32-bit scores gives that table back, in any entry order |
| HighScores.LastLineWins | src/Game.java:1032-1038 | the last accepted line for a difficulty decides its score |
| HighScores.UnmentionedKeepsValue | src/Game.java:1022-1043 | a difficulty no accepted line names keeps its default 0 |
| HighScores.TrailingColonAccepted | src/Game.java:1033-1038 | `EASY:5:` is accepted as EASY = 5 |
| HighScores.ExtraFieldRejected | src/Game.java:1033-1034 | `EASY:5:6` is skipped |
| GameModel.LevelButton | src/Game.java:114-124 | each of the level buttons lies wholly on the 800 x 600 panel, centred horizontally |
| GameModel.StartButton | src/Game.java:114-124 | the START button lies on the panel, centred, below all three level buttons |
| GameModel.MenuButton | src/Game.java:891-893 | each of the three menu rows lies wholly on the panel, centred horizontally |
| GameModel.LevelButtonsDisjoint | src/Game.java:114-124 | no point is on two level buttons, or on a level button and START |
| GameModel.MenuButtonsDisjoint | src/Game.java:891-893 | no point is on two rows of a menu |
| GameModel.LevelButtonAt | src/Game.java:874-881 | the click scan finds level i exactly when the point is on button i |
| GameModel.KeyRow | src/Game.java:1072-1100 | a key stands for a row only on a menu, and the row is one of the three |
| GameModel.EveryRowHasKey | src/Game.java:1072-1100 | every row of every menu can be chosen by some key |
| GameModel.MenuRowAt | src/Game.java:889-929 | a click selects row r exactly when it is on row r's rectangle |
| Ticks.KeptSnoc | src/Game.java:441-448 | filtering one more bullet keeps it, after the earlier survivors, exactly when it is not past the left edge |
| Ticks.KeptMembers | src/Game.java:445-447 | a bullet survives the filter exactly when its moved shot is on screen |
| Ticks.KeptAligned | src/Game.java:438-450 | the bullet objects and their moved shots survive at the same indices, so the i-th kept object carries the i-th surviving shot |
| Ticks.SurvivorsOnScreen | src/Game.java:438-450 | the surviving shots are exactly the on-screen ones of the list |
| Ticks.KeptDistinct | src/Game.java:438-450 | removal through the iterator never duplicates a bullet |
| Ticks.KeptAppend | src/Game.java:438-450 | filtering works piecewise, so the survivors keep their relative order |
| Ticks.AnyHitKept | src/Game.java:354-356 | scanning the filtered list is testing the on-screen moved bullets of the list before the filter |
| Ticks.TickShots | src/Game.java:352-357 | after a tick the bullets are every old bullet moved once by its speed, the off-screen ones dropped and the rest in order, then exactly one new bullet at (WIDTH, yDraw) with the difficulty's speed when the roll is below the spawn rate |
| Ticks.TickHit | src/Game.java:352-356 | a running tick moves the plane by `Motion.Step` and ends the game exactly when an on-screen moved bullet overlaps the moved plane; then the plane explodes, the explosion and its timer start and the file holds the table max-updated with the score before the tick; otherwise none of these change |
| Ticks.FinishKeepsFlags | src/Game.java:357-364 | spawning, scoring and the progression check leave the plane, the end flags, the explosion and the file alone |
| Ticks.TickScores | src/Game.java:352-364 | a running tick adds the multiplier to the score; a hit records the old score, and reaching the threshold completes the level and records the new score, both in the recorded scores and, max-updated, in the high scores |
| Ticks.AdvanceScores | src/Game.java:354-356 | moving and the collision check record the score only on a hit, and keep the score and the level flag |
| Ticks.FinishScores | src/Game.java:357-364 | the score grows by the multiplier, then a score at the threshold completes the level and is recorded and max-updated |
| Ticks.SpawnKeeps | src/Game.java:452-487 | spawnBullets changes the bullet list and nothing else |
| Ticks.TickKeepsSettings | src/Game.java:347-368 | a tick never changes the difficulty or the drift speed |
| Ticks.TickKeepsConsistent | src/Game.java:347-368 | a tick keeps the plane exploding exactly at game over, the explosion shown only after game over, and every difficulty in the high-score table |
| Ticks.TickHighScoresGrow | src/Game.java:347-368 | no high score decreases over a tick |
| Ticks.AdvanceHighScores | src/Game.java:489-510 | the collision check either keeps the high scores or max-updates them with the current score |
| GameModel.KeptBullets | src/Game.java:438-450 | the filtered list is still distinct bullet objects of the bullet image |
| GameModel.ShotsOfKept | src/Game.java:438-450 | the bullet objects updateBullets keeps carry exactly the surviving shots |
| GameModel.SpawnMaxY | src/Game.java:454-455 | the spawn range is positive; it is HEIGHT minus the bullet height, or HEIGHT - 1 when that is not positive |
| GameModel.Game.constructor | src/Game.java:104-183 | the game starts on the level-select screen, at EASY, in the reset state, with the table loaded from the file |
| GameModel.Game.ApplyDifficultySettings | src/Game.java:185-200 | the drift and the velocity cap become the current difficulty's |
| GameModel.Game.Tick | src/Game.java:347-368 | paused or on level select, or after game over or level completion, nothing changes; otherwise the new state is `Ticks.Ticked` of the old one (so TickShots, TickHit, TickScores and the other tick lemmas hold of it), the remaining bullet objects are the move's survivors in order followed by the fresh spawned one, and `Valid` is kept |
| GameModel.Game.Simulate | src/Game.java:352-365 | the running tick ends in `Ticks.Ticked` of the old state, keeps the settings and the plane object, and keeps the consistency invariant |
| GameModel.Game.Advance | src/Game.java:354-356 | moving and the collision check give `Ticks.Advanced` of the old state, and the bullet list becomes its survivors |
| GameModel.Game.Finish | src/Game.java:357-364 | spawning, scoring and the progression check give `Ticks.Finished`; the old bullets stay in order and a spawned one is fresh |
| GameModel.Game.Move | src/Game.java:354-355 | the plane takes one `Motion.Step`, every bullet moves by its speed and the list becomes its on-screen bullets (`Ticks.Moved`) |
| GameModel.Game.UpdatePlane | src/Game.java:392-436 | the plane's new position and velocity are `Motion.Step` of the old ones |
| GameModel.Game.MovePlane | src/Game.java:396-397 | the position moves by the velocity, truncated toward zero |
| GameModel.Game.DeceleratePlane | src/Game.java:399-410 | both velocities are decelerated |
| GameModel.Game.ClampPlane | src/Game.java:412-426 | both axes are clamped, and a clamped axis stops |
| GameModel.Game.DriftPlane | src/Game.java:428-435 | x drifts by the auto speed, or the plane wraps to (0, HEIGHT / 2) past the right edge |
| GameModel.Game.UpdateBullets | src/Game.java:438-450 | every bullet object moves once by its speed, and the list becomes exactly the objects whose moved shot is on screen, in order |
| GameModel.Game.MoveEach | src/Game.java:440-449 | the iterator loop moves each bullet once by its speed and returns exactly the survivors, `Ticks.Kept` of the moved shots |
| GameModel.Game.MoveBullet | src/Game.java:442-448 | one bullet moves by its speed, no other bullet moves, and it is kept after the survivors exactly when it is on screen |
| GameModel.Game.FindHit | src/Game.java:491-494 | the loop reports a hit exactly when some bullet intersects the plane |
| GameModel.Game.CheckCollisions | src/Game.java:489-510 | on a hit the collision branch (`Ticks.Ended`), otherwise nothing changes (`Ticks.Collided`); the bullet list is untouched |
| GameModel.Game.EndGame | src/Game.java:495-506 | game over, the plane explodes, the explosion and its timer start, the score is recorded and max-updated, and the table saved (`Ticks.Ended`) |
| GameModel.Game.SaveHighScores | src/Game.java:1051-1061 | the file becomes one `NAME:score` line per difficulty of the table, and nothing else changes |
| GameModel.Game.SpawnBullets | src/Game.java:452-487 | a roll below the spawn rate appends one fresh bullet at the right edge, at the drawn height and the difficulty's speed (`Ticks.Spawned`); otherwise nothing changes; existing bullets keep their order |
| GameModel.Game.Append | src/Game.java:485 | the new bullet goes after the others, the list stays distinct, and its shot comes last in the view |
| GameModel.Game.CheckLevelProgression | src/Game.java:379-390 | reaching the threshold completes the level and records and max-updates the score (`Ticks.Progressed`); otherwise nothing changes |
| GameModel.Game.UpdateHighScore | src/Game.java:1014-1019 | the table becomes `MaxUpdate` of the old one, and nothing else changes |
| GameModel.Game.CurrentScreen | src/Game.java:1067-1101 | input reaches the play keys exactly when a tick would simulate and no explosion is shown |
| GameModel.Game.ResetGame | src/Game.java:983-999 | resetGame gives a new plane at (100, 300) at rest, no bullets, score 0, cleared end flags, mouse control on and the difficulty's settings |
| GameModel.Game.AdvanceToNextLevel | src/Game.java:1001-1012 | the next difficulty is selected (HARD stays), and the game is reset |
| GameModel.Game.StartGame | src/Game.java:1136-1140 | leaving the level select starts a reset game |
| GameModel.Game.SelectLevel | src/Game.java:1126-1134 | the selection and the difficulty agree |
| GameModel.Game.HandleLevelSelectInput | src/Game.java:1125-1141 | UP/DOWN move the selection within 0..2 and keep the difficulty in step; ENTER starts a fresh game; other keys do nothing |
| GameModel.Game.LevelSelectClick | src/Game.java:872-888 | a level button selects its level, START starts a fresh game, elsewhere nothing |
| GameModel.Game.PauseMenuSelect | src/Game.java:1072-1081 | the rows resume, open the level select, or toggle mouse control |
| GameModel.Game.GameOverMenuSelect | src/Game.java:1084-1092 | the rows restart, open the level select, or toggle mouse control |
| GameModel.Game.LevelCompletedMenuSelect | src/Game.java:1093-1100 | the rows go to the next level, restart, or open the level select |
| GameModel.Game.MenuSelect | src/Game.java:1072-1100 | a chosen row has the effect `MenuDone`, and the invariant is kept |
| GameModel.Game.PlayingKey | src/Game.java:1101-1122 | P pauses, ESC opens the level select, M toggles mouse control; with mouse control off the arrows thrust within the cap; every other field is kept (`PlayingKeyDone`) |
| GameModel.Game.Toggle | src/Game.java:1102-1109 | P sets the pause flag, ESC opens the level select, M flips mouse control; no other field changes |
| GameModel.Game.Steer | src/Game.java:1111-1121 | UP/DOWN change only the vertical speed and LEFT/RIGHT only the horizontal one, by the acceleration within the cap; the panel and the position are untouched |
| GameModel.Game.KeyPressed | src/Game.java:1063-1123 | each screen's key effect (`KeyDone`), with no key touching the scores, the file or the explosion timer; the invariant is kept |
| GameModel.Game.HandleMouseClick | src/Game.java:868-931 | a click on a menu row has the same effect as that row's key; clicks during play do nothing; the invariant is kept |
| GameModel.Game.FocusLost | src/Game.java:146-151 | losing focus pauses exactly when a game is running |
| GameModel.Game.ExplosionTimerFires | src/Game.java:173-181 | the one-shot timer ends the explosion display and stops itself |

## Left out

- Rendering is not modelled: `paintComponent`, the HUD and menu screens, button drawing, and
  `Plane.draw`/`Bullet.draw`.
- Image loading, scaling and placeholder images are not modelled. The plane and bullet sizes are
  parameters of the `Game` constructor.
- Sound loading and playback (`playExplosionSound`) are not modelled.
- File opening, reading, writing and `IOException` handling are not modelled. The scores file is
  a value, `Option<seq<string>>` (absent, or its lines), read by the constructor and replaced at
  game over.
- The order of the `HashMap` entry set when saving is not fixed by Java. The model writes the
  `Difficulty.values()` order. The round-trip lemma holds for any order that lists each
  difficulty once.
- Swing scheduling is not modelled: `Timer` delays, the event thread, `repaint` and
  `requestFocusInWindow`. Each event is a method run to completion.
- The two `java.util.Random` draws of a tick are the parameters `roll` and `yDraw` of `Tick`,
  constrained to the ranges `nextInt` returns.
- Doubles are exact reals, so the model does not capture floating-point rounding of the 0.1
  deceleration and 0.2 acceleration steps.
- Mouse-follow steering (`mouseMoved` while playing) and the hover highlights of the level-select
  buttons are not modelled. Steering is floating-point velocity arithmetic and the highlights are
  cosmetic.
- `main` and the window setup are not modelled.
- The time-based explosion counter `explosionDuration` is not modelled; it is set but never read
  by the core.
- GameModel.Game.Tick: does not model the 32-bit wrap-around of Java's `int score`. The score is
  an unbounded `nat`, so after about 2^31 points the model keeps counting where Java wraps. For
  the same reason nothing shows that the table a game saves holds only 32-bit scores, which
  `HighScores.SaveLoadRoundTrip` requires (`InInt32`).
- JavaText.ParseInt: accepts only the ASCII digits '0' to '9'. `Integer.parseInt` also accepts
  the other Unicode decimal digits, which `Character.digit` recognises. The score file never
  holds them.
- GameModel.Game.CurrentScreen: states only the Playing and Exploding screens in its contract.
  Its body is the test order of the handlers.
- Bullets.Bullet.Bounds: states non-emptiness only. The rectangle itself is the bullet's position
  and image size, as in its body.
- Planes.Plane.Bounds: states non-emptiness only. The rectangle itself is the plane's position and
  image size, as in its body.
