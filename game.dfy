/**
 * The game panel of Game.java: the per-tick simulation (actionPerformed), the
 * screen flags it and the input handlers move between, the bullet list and the
 * high-score table. Swing events (timer ticks, key presses, clicks, focus loss,
 * the one-shot explosion timer) are methods called one after another; the two
 * random draws of a tick are parameters.
 */
module GameModel {

  import opened Wrappers
  import opened Geometry
  import opened Difficulties
  import opened HighScores
  import opened Motion
  import opened Planes
  import opened Bullets
  import opened Ticks

  /** The key codes the game reacts to; every other key is Other. */
  datatype Key = Up | Down | Left | Right | Enter | Escape | P | M | R | L | N | Other

  // ---------------------------------------------------------------- buttons

  /** A rectangle of positive area lying wholly on the WIDTH x HEIGHT panel. */
  predicate InsidePanel(r: Rect) {
    NonEmpty(r) && 0 <= r.x && r.x + r.width <= WIDTH && 0 <= r.y && r.y + r.height <= HEIGHT
  }

  /**
   * The three level buttons of the level-select screen, laid out in the
   * constructor: centred, one below the other.
   */
  function LevelButton(i: int): (r: Rect)
    ensures 0 <= i <= 3 ==> InsidePanel(r)
    ensures 2 * r.x + r.width == WIDTH
  {
    Rect((WIDTH - 300) / 2, 200 + i * 80, 300, 60)
  }

  /** The start button, centred in the slot below the third level button. */
  function StartButton(): (r: Rect)
    ensures InsidePanel(r) && 2 * r.x + r.width == WIDTH
    ensures forall i :: 0 <= i < 3 ==> LevelButton(i).y + LevelButton(i).height < r.y
  {
    Rect((WIDTH - 300) / 2, 200 + 3 * 80, 300, 60)
  }

  /**
   * Row 0, 1 or 2 of the pause, game-over and level-completed menus: the
   * rectangles at HEIGHT / 2 - 20, + 50 and + 120, centred, one below the other.
   */
  function MenuButton(row: int): (r: Rect)
    ensures 0 <= row < 3 ==> InsidePanel(r)
    ensures 2 * r.x + r.width == WIDTH
  {
    Rect(WIDTH / 2 - 150, HEIGHT / 2 - 20 + row * 70, 300, 50)
  }

  /** No point is on two different level buttons, so the first hit is the only one. */
  lemma LevelButtonsDisjoint(i: int, j: int, p: Point)
    requires 0 <= i < j < 3
    ensures !(Contains(LevelButton(i), p) && Contains(LevelButton(j), p))
    ensures !(Contains(LevelButton(i), p) && Contains(StartButton(), p))
  {
  }

  /** No point is on two different rows of a menu. */
  lemma MenuButtonsDisjoint(i: int, j: int, p: Point)
    requires 0 <= i < j < 3
    ensures !(Contains(MenuButton(i), p) && Contains(MenuButton(j), p))
  {
  }

  /** The loop of handleMouseClick over the level buttons: the first one containing p. */
  method LevelButtonAt(p: Point) returns (r: Option<nat>)
    ensures forall i :: 0 <= i < 3 ==> (r == Some(i) <==> Contains(LevelButton(i), p))
    ensures r.Some? ==> r.value < 3
  {
    var i := 0;
    while i < 3
      invariant 0 <= i <= 3
      invariant forall j :: 0 <= j < i ==> !Contains(LevelButton(j), p)
    {
      if Contains(LevelButton(i), p) {
        return Some(i);
      }
      i := i + 1;
    }
    return None;
  }

  /** The screens the key and click handlers tell apart. */
  datatype Screen = LevelSelect | PauseMenu | GameOverMenu | LevelCompletedMenu | Playing | Exploding
  {
    predicate IsMenu() {
      this in {PauseMenu, GameOverMenu, LevelCompletedMenu}
    }
  }

  /**
   * The menu row a key stands for: P, ESC, M on the pause menu; R, L or ESC, M
   * on the game-over menu; N, R, L or ESC on the level-completed menu.
   */
  function KeyRow(s: Screen, key: Key): (r: Option<nat>)
    ensures r.Some? ==> r.value < 3 && s.IsMenu()
  {
    match s
    case PauseMenu =>
      if key == P then Some(0) else if key == Escape then Some(1) else if key == M then Some(2) else None
    case GameOverMenu =>
      if key == R then Some(0) else if key in {L, Escape} then Some(1) else if key == M then Some(2) else None
    case LevelCompletedMenu =>
      if key == N then Some(0) else if key == R then Some(1) else if key in {L, Escape} then Some(2) else None
    case _ => None
  }

  /** Every button of every menu can also be chosen from the keyboard. */
  lemma EveryRowHasKey(s: Screen, row: nat)
    requires s.IsMenu() && row < 3
    ensures exists key :: KeyRow(s, key) == Some(row)
  {
    var keys := if s == PauseMenu then [P, Escape, M] else if s == GameOverMenu then [R, L, M] else [N, R, L];
    assert KeyRow(s, keys[row]) == Some(row);
  }

  /** The menu row under p, testing the rows from the top as handleMouseClick does. */
  function MenuRowAt(p: Point): (r: Option<nat>)
    ensures forall row :: 0 <= row < 3 ==> (r == Some(row) <==> Contains(MenuButton(row), p))
    ensures r.Some? ==> r.value < 3
  {
    if Contains(MenuButton(0), p) then Some(0)
    else if Contains(MenuButton(1), p) then Some(1)
    else if Contains(MenuButton(2), p) then Some(2)
    else None
  }

  // ---------------------------------------------------------------- bullets as values

  /** A bullet's position, image size and speed as a value. */
  function ShotOf(b: Bullet): (s: Shot)
    reads b`x, b`velocityX
    ensures s.Bounds() == b.Bounds()
  {
    Shot(b.x, b.y, b.width, b.height, b.velocityX)
  }

  /** The shots of the bullets, in order. */
  function Shots(bs: seq<Bullet>): (ss: seq<Shot>)
    reads bs`x, bs`velocityX
    ensures |ss| == |bs| && forall k :: 0 <= k < |bs| ==> ss[k] == ShotOf(bs[k])
    decreases |bs|
  {
    if |bs| == 0 then [] else Shots(bs[..|bs| - 1]) + [ShotOf(bs[|bs| - 1])]
  }

  /** Shots, read off elementwise. */
  lemma ShotsOfEach(bs: seq<Bullet>, ss: seq<Shot>)
    requires |ss| == |bs| && forall k :: 0 <= k < |bs| ==> ss[k] == ShotOf(bs[k])
    ensures Shots(bs) == ss
  {
  }

  /** Filtering keeps the bullets distinct objects drawn from one image. */
  lemma KeptBullets(bs: seq<Bullet>, ss: seq<Shot>, width: int, height: int)
    requires |bs| == |ss| && Distinct(bs)
    requires forall b :: b in bs ==> b.width == width && b.height == height
    ensures Distinct(Kept(bs, ss))
    ensures forall b :: b in Kept(bs, ss) ==> b.width == width && b.height == height
  {
    KeptMembers(bs, ss);
    KeptDistinct(bs, ss);
  }

  /**
   * Filtering the bullets by the shots they have gives the bullets whose
   * shots survive: the objects updateBullets keeps carry the surviving shots.
   */
  lemma {:induction false} ShotsOfKept(bs: seq<Bullet>, ss: seq<Shot>)
    requires Shots(bs) == ss
    ensures Shots(Kept(bs, ss)) == Kept(ss, ss)
    decreases |bs|
  {
    if |bs| > 0 {
      var n := |bs| - 1;
      var init := bs[..n];
      assert Shots(init) == ss[..n];
      ShotsOfKept(init, ss[..n]);
      if !ss[n].OffScreen() {
        var kept := Kept(init, ss[..n]) + [bs[n]];
        assert kept[..|kept| - 1] == Kept(init, ss[..n]);
      }
    }
  }

  /** spawnBullets' bound for the y draw: room for the whole bullet, or HEIGHT - 1 if none. */
  function SpawnMaxY(bulletHeight: int): (m: int)
    ensures m > 0
    ensures bulletHeight < HEIGHT ==> m + bulletHeight == HEIGHT
    ensures bulletHeight >= HEIGHT ==> m == HEIGHT - 1
  {
    var m := HEIGHT - bulletHeight;
    if m <= 0 then HEIGHT - 1 else m
  }

  /** The plane's position and speed as a value. */
  function Snapshot(p: Plane): PlaneState
    reads p`x, p`y, p`velocityX, p`velocityY
  {
    PlaneState(p.x, p.y, p.velocityX, p.velocityY)
  }

  /**
   * The fields of the panel that the key and click handlers read and write,
   * gathered so that the whole effect of an event is one equation.
   */
  datatype Status = Status(
    isPaused: bool, showLevelSelect: bool, difficulty: Difficulty, levelIndex: int,
    gameOver: bool, levelCompleted: bool, showingExplosion: bool, score: nat,
    mouseControl: bool, autoSpeed: int, maxVelocity: int, plane: Plane, bullets: seq<Bullet>)

  /**
   * resetGame applied to status s with the new plane p: no bullets, score 0,
   * end flags cleared, mouse control on and the difficulty's speeds; the pause
   * flag, the screen and the difficulty are kept.
   */
  function AfterReset(s: Status, p: Plane): Status {
    s.(plane := p, bullets := [], gameOver := false, levelCompleted := false, showingExplosion := false,
       score := 0, mouseControl := true, autoSpeed := AutoSpeedX(s.difficulty), maxVelocity := MaxVelocity(s.difficulty))
  }

  /** advanceToNextLevel's choice of level from status s, before the reset. */
  function NextLevel(s: Status): Status {
    s.(difficulty := Next(s.difficulty), levelIndex := Ordinal(Next(s.difficulty)))
  }

  // ---------------------------------------------------------------- the game

  class Game {
    var plane: Plane
    var bullets: seq<Bullet>
    var gameOver: bool
    var score: nat
    var planeAutoSpeedX: int
    var maxVelocity: int
    var mouseControlEnabled: bool
    var currentDifficulty: Difficulty
    /** The score recorded per difficulty at game over or level completion. */
    var difficultyScores: Table
    var highScores: Table
    var isPaused: bool
    var showLevelSelect: bool
    var levelCompleted: bool
    var showingExplosion: bool
    /** Whether the one-second explosion timer is running. */
    var explosionTimerRunning: bool
    var selectedLevelIndex: int
    /** The lines of the scores file; None while no such file exists. */
    var scoreFile: Option<seq<string>>
    /** The plane and bullet image sizes. */
    const planeWidth: int
    const planeHeight: int
    const bulletWidth: int
    const bulletHeight: int

    ghost predicate Valid()
      reads this`plane, this`selectedLevelIndex, this`currentDifficulty, this`showLevelSelect
      reads this`planeAutoSpeedX, this`maxVelocity, this`bullets, plane`exploding, this`gameOver
      reads this`showingExplosion, this`highScores
    {
      Configured() && Coherent()
    }

    /**
     * The state a tick keeps consistent: the bullets are valid, the plane
     * explodes exactly when the game is over, the explosion is shown only then,
     * and every difficulty has a high score.
     */
    ghost predicate Coherent()
      reads this`bullets, this`plane, plane`exploding, this`gameOver, this`showingExplosion, this`highScores
    {
      && BulletsValid()
      && plane.exploding == gameOver
      && (showingExplosion ==> gameOver)
      && Total(highScores)
    }

    /**
     * The plane has the image's size, the difficulty is the selected level's,
     * and once a level is chosen the plane's speeds are that difficulty's.
     */
    ghost predicate Configured()
      reads this`plane, this`selectedLevelIndex, this`currentDifficulty, this`showLevelSelect
      reads this`planeAutoSpeedX, this`maxVelocity
    {
      && PlaneSized()
      && Ordinal(currentDifficulty) == selectedLevelIndex
      && (!showLevelSelect ==>
            planeAutoSpeedX == AutoSpeedX(currentDifficulty) && maxVelocity == MaxVelocity(currentDifficulty))
    }

    /** The plane has the size of its image. */
    ghost predicate PlaneSized()
      reads this`plane
    {
      plane.width == planeWidth && plane.height == planeHeight
    }

    /** Every bullet is a distinct object drawn from the bullet image. */
    ghost predicate BulletsValid()
      reads this`bullets
    {
      && (forall b :: b in bullets ==> b.width == bulletWidth && b.height == bulletHeight)
      && Distinct(bullets)
    }

    /** The flags under which a tick runs the simulation. */
    predicate Simulating()
      reads this`isPaused, this`showLevelSelect, this`gameOver, this`levelCompleted
    {
      !isPaused && !showLevelSelect && !gameOver && !levelCompleted
    }

    /** What resetGame leaves behind. */
    ghost predicate Fresh()
      reads this, plane
    {
      && score == 0 && bullets == []
      && !gameOver && !levelCompleted && !showingExplosion
      && Snapshot(plane) == PlaneState(100, HEIGHT / 2, 0.0, 0.0) && !plane.exploding
      && mouseControlEnabled
      && planeAutoSpeedX == AutoSpeedX(currentDifficulty) && maxVelocity == MaxVelocity(currentDifficulty)
    }

    /** The fields the input handlers read and write, as one value. */
    function Current(): Status
      reads this
    {
      Status(isPaused, showLevelSelect, currentDifficulty, selectedLevelIndex, gameOver, levelCompleted,
             showingExplosion, score, mouseControlEnabled, planeAutoSpeedX, maxVelocity, plane, bullets)
    }

    /**
     * resetGame's effect from status s: AfterReset with a new plane at
     * (100, HEIGHT / 2), at rest and not exploding.
     */
    twostate predicate ResetFrom(s: Status)
      reads this, plane
    {
      && Current() == AfterReset(s, plane)
      && fresh(plane) && Snapshot(plane) == PlaneState(100, HEIGHT / 2, 0.0, 0.0) && !plane.exploding
    }

    /** The constructor: loadHighScores, then initializeGame, on the level-select screen. */
    constructor (planeWidth: int, planeHeight: int, bulletWidth: int, bulletHeight: int,
                 file: Option<seq<string>>)
      ensures Valid() && Fresh()
      ensures this.planeWidth == planeWidth && this.planeHeight == planeHeight
      ensures this.bulletWidth == bulletWidth && this.bulletHeight == bulletHeight
      ensures showLevelSelect && !isPaused && !explosionTimerRunning
      ensures currentDifficulty == EASY && selectedLevelIndex == 0
      ensures highScores == LoadTable(file) && scoreFile == file
    {
      this.planeWidth := planeWidth;
      this.planeHeight := planeHeight;
      this.bulletWidth := bulletWidth;
      this.bulletHeight := bulletHeight;
      var table := Defaults();
      if file.Some? {
        table := ParseScoreLines(file.value);
      }
      highScores := table;
      difficultyScores := map[];
      scoreFile := file;
      currentDifficulty := EASY;
      selectedLevelIndex := 0;
      isPaused := false;
      showLevelSelect := true;
      mouseControlEnabled := true;
      explosionTimerRunning := false;
      plane := new Plane(100, HEIGHT / 2, planeWidth, planeHeight);
      bullets := [];
      gameOver := false;
      score := 0;
      levelCompleted := false;
      showingExplosion := false;
      planeAutoSpeedX := AutoSpeedX(EASY);
      maxVelocity := MaxVelocity(EASY);
    }

    /** applyDifficultySettings. */
    method ApplyDifficultySettings()
      modifies this`planeAutoSpeedX, this`maxVelocity
      ensures planeAutoSpeedX == AutoSpeedX(currentDifficulty)
      ensures maxVelocity == MaxVelocity(currentDifficulty)
    {
      match currentDifficulty {
        case EASY =>
          planeAutoSpeedX := 2;
          maxVelocity := 5;
        case MEDIUM =>
          planeAutoSpeedX := 3;
          maxVelocity := 6;
        case HARD =>
          planeAutoSpeedX := 4;
          maxVelocity := 7;
      }
    }

    // ------------------------------------------------------------ one tick

    /** The tick's view of the panel: its fields, its plane and its bullets as one value. */
    ghost function View(): Frame
      reads this`currentDifficulty, this`planeAutoSpeedX, this`plane, this`bullets, this`gameOver
      reads this`showingExplosion, this`explosionTimerRunning, this`score, this`levelCompleted
      reads this`highScores, this`difficultyScores, this`scoreFile
      reads plane`x, plane`y, plane`velocityX, plane`velocityY, plane`exploding, bullets`x, bullets`velocityX
    {
      FrameOf(PanelFields(), Snapshot(plane), Shots(bullets))
    }

    /** The view's entries that are neither the plane's position and speed nor the bullets. */
    ghost function PanelFields(): (Difficulty, int, bool, bool, bool, bool, nat, bool, Table, Table, Option<seq<string>>)
      reads this`currentDifficulty, this`planeAutoSpeedX, this`plane, plane`exploding, this`gameOver, this`showingExplosion
      reads this`explosionTimerRunning, this`score, this`levelCompleted, this`highScores, this`difficultyScores, this`scoreFile
    {
      (currentDifficulty, planeAutoSpeedX, plane.exploding, gameOver, showingExplosion, explosionTimerRunning, score,
       levelCompleted, highScores, difficultyScores, scoreFile)
    }

    /** The frame with the panel's entries r, the plane p and the shots ss. */
    static function FrameOf(r: (Difficulty, int, bool, bool, bool, bool, nat, bool, Table, Table, Option<seq<string>>),
                            p: PlaneState, ss: seq<Shot>): Frame {
      Frame(r.0, r.1, p, r.2, ss, r.3, r.4, r.5, r.6, r.7, r.8, r.9, r.10)
    }

    /** The plane and bullet image sizes, as the tick functions take them. */
    function ImageSizes(): Sizes {
      Sizes(planeWidth, planeHeight, bulletWidth, bulletHeight)
    }

    /**
     * actionPerformed: nothing while paused or on the level-select screen, no
     * simulation after game over or level completion; otherwise the plane, the
     * bullets, the collision check, the spawn, the score and the progression
     * check, in that order, as Ticks.Ticked says. The bullet objects that stay
     * are the survivors of the move, in order, followed by the new one.
     */
    method Tick(roll: int, yDraw: int)
      requires Valid()
      requires 0 <= roll < 100 && 0 <= yDraw < SpawnMaxY(bulletHeight)
      modifies this`bullets, this`gameOver, this`showingExplosion, this`explosionTimerRunning, this`score
      modifies this`levelCompleted, this`difficultyScores, this`highScores, this`scoreFile
      modifies plane`x, plane`y, plane`velocityX, plane`velocityY, plane`exploding, bullets`x
      ensures Valid()
      ensures !old(Simulating()) ==> unchanged(this, old(plane)) && unchanged(old(bullets))
      ensures old(Simulating()) ==> View() == Ticked(old(View()), ImageSizes(), roll, yDraw)
      ensures old(Simulating()) ==>
        var kept := Kept(old(bullets), UpdateAll(old(Shots(bullets))));
        && |bullets| == |kept| + (if roll < SpawnRate(currentDifficulty) then 1 else 0)
        && bullets[..|kept|] == kept
        && (roll < SpawnRate(currentDifficulty) ==> fresh(bullets[|kept|]))
    {
      if isPaused || showLevelSelect {
        return;
      }
      if !gameOver && !levelCompleted {
        Simulate(roll, yDraw);
      }
    }

    /** The body of actionPerformed while playing. */
    method Simulate(roll: int, yDraw: int)
      requires Valid() && Simulating()
      requires 0 <= roll < 100 && 0 <= yDraw < SpawnMaxY(bulletHeight)
      modifies this`bullets, this`gameOver, this`showingExplosion, this`explosionTimerRunning, this`score
      modifies this`levelCompleted, this`difficultyScores, this`highScores, this`scoreFile
      modifies plane`x, plane`y, plane`velocityX, plane`velocityY, plane`exploding, bullets`x
      ensures Coherent()
      ensures unchanged(this`currentDifficulty, this`selectedLevelIndex, this`planeAutoSpeedX, this`maxVelocity, this`showLevelSelect, this`plane)
      ensures View() == Ticked(old(View()), ImageSizes(), roll, yDraw)
      ensures var kept := Kept(old(bullets), UpdateAll(old(Shots(bullets))));
        && |bullets| == |kept| + (if roll < SpawnRate(currentDifficulty) then 1 else 0)
        && bullets[..|kept|] == kept
        && (roll < SpawnRate(currentDifficulty) ==> fresh(bullets[|kept|]))
    {
      Advance();
      Finish(roll, yDraw);
      TickKeepsConsistent(old(View()), ImageSizes(), roll, yDraw);
    }

    /** The first half of a simulated tick: the plane, the bullets and the collision check. */
    method Advance()
      requires PlaneSized() && BulletsValid() && Total(highScores)
      modifies this`bullets, this`gameOver, this`showingExplosion, this`explosionTimerRunning
      modifies this`difficultyScores, this`highScores, this`scoreFile
      modifies plane`x, plane`y, plane`velocityX, plane`velocityY, plane`exploding, bullets`x
      ensures BulletsValid()
      ensures View() == Advanced(old(View()), ImageSizes())
      ensures unchanged(this`currentDifficulty, this`selectedLevelIndex, this`planeAutoSpeedX, this`maxVelocity, this`showLevelSelect, this`plane)
      ensures bullets == Kept(old(bullets), UpdateAll(old(Shots(bullets))))
    {
      Move();
      CheckCollisions();
    }

    /** The second half of a simulated tick: the spawn, the score and the progression check. */
    method Finish(roll: int, yDraw: int)
      requires BulletsValid()
      requires 0 <= roll < 100 && 0 <= yDraw < SpawnMaxY(bulletHeight)
      modifies this`bullets, this`score, this`levelCompleted, this`difficultyScores, this`highScores
      ensures BulletsValid()
      ensures View() == Finished(old(View()), ImageSizes(), roll, yDraw)
      ensures unchanged(this`currentDifficulty, this`selectedLevelIndex, this`planeAutoSpeedX, this`maxVelocity, this`showLevelSelect, this`plane)
      ensures |bullets| == |old(bullets)| + (if roll < SpawnRate(currentDifficulty) then 1 else 0)
      ensures bullets[..|old(bullets)|] == old(bullets)
      ensures roll < SpawnRate(currentDifficulty) ==> fresh(bullets[|old(bullets)|])
    {
      SpawnBullets(roll, yDraw);
      ghost var v := View();
      score := score + ScoreMultiplier(currentDifficulty);
      assert View() == Scored(v);
      CheckLevelProgression();
    }

    /** updatePlane then updateBullets. */
    method Move()
      requires PlaneSized() && BulletsValid()
      modifies plane`x, plane`y, plane`velocityX, plane`velocityY, this`bullets, bullets`x
      ensures BulletsValid()
      ensures unchanged(this`currentDifficulty, this`selectedLevelIndex, this`planeAutoSpeedX, this`maxVelocity, this`showLevelSelect, this`plane)
      ensures View() == Moved(old(View()), ImageSizes())
      ensures bullets == Kept(old(bullets), UpdateAll(old(Shots(bullets))))
    {
      ghost var v0 := View();
      UpdatePlane();
      assert View() == v0.(plane := Snapshot(plane));
      UpdateBullets();
    }

    /**
     * updatePlane, proved against Motion.Step: the four phases of the source
     * method, one after another.
     */
    method UpdatePlane()
      modifies plane`x, plane`y, plane`velocityX, plane`velocityY
      ensures unchanged(this, plane`exploding, bullets)
      ensures Snapshot(plane) == Step(old(Snapshot(plane)), plane.width, plane.height, planeAutoSpeedX)
    {
      MovePlane();
      DeceleratePlane();
      ClampPlane();
      DriftPlane();
    }

    /** Move by the velocity, truncating the double sum to an int. */
    method MovePlane()
      modifies plane`x, plane`y
      ensures plane.x == TruncateToInt(old(plane.x) as real + plane.velocityX)
      ensures plane.y == TruncateToInt(old(plane.y) as real + plane.velocityY)
    {
      plane.SetX(TruncateToInt(plane.x as real + plane.velocityX));
      plane.SetY(TruncateToInt(plane.y as real + plane.velocityY));
    }

    /** Slow both velocity components by DECELERATION, stopping at zero. */
    method DeceleratePlane()
      modifies plane`velocityX, plane`velocityY
      ensures plane.velocityX == Decelerate(old(plane.velocityX))
      ensures plane.velocityY == Decelerate(old(plane.velocityY))
    {
      if plane.velocityX > 0.0 {
        plane.SetVelocityX(if plane.velocityX - DECELERATION < 0.0 then 0.0 else plane.velocityX - DECELERATION);
      } else if plane.velocityX < 0.0 {
        plane.SetVelocityX(if plane.velocityX + DECELERATION > 0.0 then 0.0 else plane.velocityX + DECELERATION);
      }
      if plane.velocityY > 0.0 {
        plane.SetVelocityY(if plane.velocityY - DECELERATION < 0.0 then 0.0 else plane.velocityY - DECELERATION);
      } else if plane.velocityY < 0.0 {
        plane.SetVelocityY(if plane.velocityY + DECELERATION > 0.0 then 0.0 else plane.velocityY + DECELERATION);
      }
    }

    /** Keep the plane inside the field, stopping it on an axis where it was pushed back. */
    method ClampPlane()
      modifies plane`x, plane`y, plane`velocityX, plane`velocityY
      ensures var cx := Clamp(old(plane.x), WIDTH - plane.width);
        plane.x == cx.pos && plane.velocityX == (if cx.hit then 0.0 else old(plane.velocityX))
      ensures var cy := Clamp(old(plane.y), HEIGHT - plane.height);
        plane.y == cy.pos && plane.velocityY == (if cy.hit then 0.0 else old(plane.velocityY))
    {
      if plane.y < 0 {
        plane.SetY(0);
        plane.SetVelocityY(0.0);
      } else if plane.y > HEIGHT - plane.height {
        plane.SetY(HEIGHT - plane.height);
        plane.SetVelocityY(0.0);
      }
      if plane.x < 0 {
        plane.SetX(0);
        plane.SetVelocityX(0.0);
      } else if plane.x > WIDTH - plane.width {
        plane.SetX(WIDTH - plane.width);
        plane.SetVelocityX(0.0);
      }
    }

    /** The auto-scroll drift, wrapping to the left edge at mid height past the right edge. */
    method DriftPlane()
      modifies plane`x, plane`y
      ensures old(plane.x) + planeAutoSpeedX > WIDTH ==> plane.x == 0 && plane.y == HEIGHT / 2
      ensures old(plane.x) + planeAutoSpeedX <= WIDTH ==>
        plane.x == old(plane.x) + planeAutoSpeedX && plane.y == old(plane.y)
    {
      plane.SetX(plane.x + planeAutoSpeedX);
      if plane.x > WIDTH {
        plane.SetX(0);
        plane.SetY(HEIGHT / 2);
      }
    }

    /**
     * updateBullets: move every bullet once, then drop it if it is off screen;
     * the survivors keep their order.
     */
    method UpdateBullets()
      requires BulletsValid()
      modifies this`bullets, bullets`x
      ensures BulletsValid()
      ensures unchanged(this`currentDifficulty, this`selectedLevelIndex, this`planeAutoSpeedX, this`maxVelocity, this`showLevelSelect, this`plane)
      ensures Shots(old(bullets)) == UpdateAll(old(Shots(bullets)))
      ensures bullets == Kept(old(bullets), UpdateAll(old(Shots(bullets))))
      ensures View() == old(View()).(shots := Kept(UpdateAll(old(Shots(bullets))), UpdateAll(old(Shots(bullets)))))
    {
      ghost var bs, s0 := bullets, Shots(bullets);
      var kept, moved := MoveEach(bullets);
      bullets := kept;
      assert PanelFields() == old(PanelFields()) && Snapshot(plane) == old(Snapshot(plane));
      ShotsOfEach(bs, moved);
      assert moved == UpdateAll(s0);
      ShotsOfKept(bs, moved);
      KeptBullets(bs, moved, bulletWidth, bulletHeight);
    }

    /** The loop of updateBullets: moves every bullet of bs once and returns the survivors. */
    static method MoveEach(bs: seq<Bullet>) returns (kept: seq<Bullet>, ghost moved: seq<Shot>)
      requires Distinct(bs)
      modifies bs`x
      ensures |moved| == |bs|
      ensures forall k :: 0 <= k < |bs| ==> moved[k] == ShotOf(bs[k]) == old(ShotOf(bs[k])).Updated()
      ensures kept == Kept(bs, moved)
    {
      var i := 0;
      kept, moved := [], [];
      while i < |bs|
        invariant 0 <= i <= |bs| && |moved| == i
        invariant forall k :: 0 <= k < i ==> moved[k] == old(ShotOf(bs[k])).Updated() && bs[k].x == moved[k].x
        invariant forall k :: i <= k < |bs| ==> bs[k].x == old(bs[k].x)
        invariant kept == Kept(bs[..i], moved)
      {
        kept := MoveBullet(bs[i], bs, i, moved, kept);
        moved := moved + [ShotOf(bs[i])];
        i := i + 1;
      }
      assert bs[..i] == bs;
    }

    /**
     * One step of updateBullets: move the i-th bullet, then keep it after the
     * survivors so far if it is on screen.
     */
    static method MoveBullet(b: Bullet, bs: seq<Bullet>, i: nat, ghost ss: seq<Shot>, kept: seq<Bullet>)
      returns (kept': seq<Bullet>)
      requires i < |bs| && b == bs[i] && |ss| == i && kept == Kept(bs[..i], ss) && Distinct(bs)
      modifies b`x
      ensures ShotOf(b) == old(ShotOf(b)).Updated()
      ensures forall k :: 0 <= k < |bs| && k != i ==> bs[k].x == old(bs[k].x)
      ensures kept' == Kept(bs[..i + 1], ss + [ShotOf(b)])
    {
      b.Update();
      assert bs[..i + 1] == bs[..i] + [b];
      KeptSnoc(bs[..i], ss, b, ShotOf(b));
      if !(b.x + b.width < 0) {
        kept' := kept + [b];
      } else {
        kept' := kept;
      }
    }

    /** The scan of checkCollisions: does any bullet intersect the plane? */
    method FindHit() returns (hit: bool)
      ensures hit <==> AnyHit(plane.Bounds(), Shots(bullets))
    {
      var planeRect := plane.Bounds();
      var i := 0;
      while i < |bullets|
        invariant 0 <= i <= |bullets|
        invariant forall k :: 0 <= k < i ==> !Intersects(planeRect, Shots(bullets)[k].Bounds())
      {
        if Intersects(planeRect, bullets[i].Bounds()) {
          assert Intersects(planeRect, Shots(bullets)[i].Bounds());
          return true;
        }
        i := i + 1;
      }
      return false;
    }

    /**
     * checkCollisions: on a hit, the collision branch (Ticks.Ended); without a
     * hit nothing changes.
     */
    method CheckCollisions()
      requires PlaneSized() && Total(highScores)
      modifies this`gameOver, this`showingExplosion, this`explosionTimerRunning
      modifies this`difficultyScores, this`highScores, this`scoreFile, plane`exploding
      ensures unchanged(this`currentDifficulty, this`selectedLevelIndex, this`planeAutoSpeedX, this`maxVelocity, this`showLevelSelect, this`plane)
      ensures unchanged(this`bullets)
      ensures View() == Collided(old(View()), ImageSizes())
    {
      var hit := FindHit();
      if hit {
        EndGame();
      }
    }

    /**
     * The collision branch of checkCollisions: game over, the plane explodes,
     * the explosion timer starts, and the score is recorded and saved.
     */
    method EndGame()
      requires Total(highScores)
      modifies this`gameOver, this`showingExplosion, this`explosionTimerRunning
      modifies this`difficultyScores, this`highScores, this`scoreFile, plane`exploding
      ensures View() == Ended(old(View()))
    {
      gameOver := true;
      plane.SetExploding(true);
      showingExplosion := true;
      explosionTimerRunning := true;
      difficultyScores := difficultyScores[currentDifficulty := score];
      assert Shots(bullets) == old(Shots(bullets)) && Snapshot(plane) == old(Snapshot(plane));
      assert View() == old(View()).(gameOver := true, exploding := true, showingExplosion := true,
                                    explosionTimer := true, difficultyScores := difficultyScores);
      UpdateHighScore(currentDifficulty, score);
      MaxUpdateMonotone(old(highScores), currentDifficulty, score);
      SaveHighScores();
    }

    /** saveHighScores: the file now holds one line per difficulty, in declaration order. */
    method SaveHighScores()
      requires Total(highScores)
      modifies this`scoreFile
      ensures scoreFile == Some(FormatTable(highScores, Values()))
      ensures View() == old(View()).(file := scoreFile)
    {
      scoreFile := Some(FormatTable(highScores, Values()));
    }

    /**
     * spawnBullets: with a roll below the difficulty's spawn rate, append one new
     * bullet at the right edge, at height yDraw, with the difficulty's speed.
     */
    method SpawnBullets(roll: int, yDraw: int)
      requires BulletsValid()
      requires 0 <= roll < 100 && 0 <= yDraw < SpawnMaxY(bulletHeight)
      modifies this`bullets
      ensures BulletsValid()
      ensures unchanged(this`currentDifficulty, this`selectedLevelIndex, this`planeAutoSpeedX, this`maxVelocity, this`showLevelSelect, this`plane)
      ensures View() == Spawned(old(View()), ImageSizes(), roll, yDraw)
      ensures |bullets| == |old(bullets)| + (if roll < SpawnRate(currentDifficulty) then 1 else 0)
      ensures bullets[..|old(bullets)|] == old(bullets)
      ensures roll < SpawnRate(currentDifficulty) ==> fresh(bullets[|old(bullets)|])
    {
      var maxY := HEIGHT - bulletHeight;
      if maxY <= 0 {
        maxY := HEIGHT - 1;
      }
      var spawnRate, bulletSpeed := SpawnRate(currentDifficulty), BulletSpeed(currentDifficulty);
      if roll < spawnRate {
        var b := new Bullet(WIDTH, yDraw, bulletWidth, bulletHeight);
        b.SetVelocityX(bulletSpeed);
        assert View() == old(View());
        Append(b);
      }
    }

    /** Adds a bullet of the bullet image that is not yet in the list; its shot comes last in the view. */
    method Append(b: Bullet)
      requires BulletsValid() && b !in bullets && b.width == bulletWidth && b.height == bulletHeight
      modifies this`bullets
      ensures bullets == old(bullets) + [b]
      ensures BulletsValid()
      ensures View() == old(View()).(shots := old(View()).shots + [ShotOf(b)])
    {
      bullets := bullets + [b];
      assert Shots(bullets) == old(Shots(bullets)) + [ShotOf(b)];
    }

    /** checkLevelProgression: EASY at 500 or MEDIUM at 1000 completes the level. */
    method CheckLevelProgression()
      modifies this`levelCompleted, this`difficultyScores, this`highScores
      ensures unchanged(this`currentDifficulty, this`selectedLevelIndex, this`planeAutoSpeedX, this`maxVelocity, this`showLevelSelect, this`plane)
      ensures View() == Progressed(old(View()))
    {
      if currentDifficulty == EASY && score >= MEDIUM_THRESHOLD {
        levelCompleted := true;
        difficultyScores := difficultyScores[EASY := score];
        UpdateHighScore(EASY, score);
      } else if currentDifficulty == MEDIUM && score >= HARD_THRESHOLD {
        levelCompleted := true;
        difficultyScores := difficultyScores[MEDIUM := score];
        UpdateHighScore(MEDIUM, score);
      }
    }

    /** updateHighScore. */
    method UpdateHighScore(d: Difficulty, newScore: int)
      modifies this`highScores
      ensures highScores == MaxUpdate(old(highScores), d, newScore)
      ensures unchanged(this`currentDifficulty, this`selectedLevelIndex, this`planeAutoSpeedX, this`maxVelocity, this`showLevelSelect, this`plane)
      ensures View() == old(View()).(highScores := highScores)
    {
      var current := if d in highScores then highScores[d] else 0;
      if newScore > current {
        highScores := highScores[d := newScore];
      }
    }

    // ------------------------------------------------------------ screens and input

    /** The screen the key and click handlers act on, decided in the order they check the flags. */
    function CurrentScreen(): (s: Screen)
      reads this
      ensures s == Playing <==> Simulating() && !showingExplosion
      ensures s == Exploding ==> showingExplosion && !levelCompleted
    {
      if showLevelSelect then LevelSelect
      else if isPaused then PauseMenu
      else if gameOver && !showingExplosion then GameOverMenu
      else if levelCompleted then LevelCompletedMenu
      else if !showingExplosion then Playing
      else Exploding
    }

    /**
     * resetGame: a new plane at (100, HEIGHT / 2), no bullets, score 0, all end
     * flags cleared, mouse control on and the difficulty's settings applied. The
     * pause flag, the screen and the explosion timer are left as they are.
     */
    method ResetGame()
      modifies this`plane, this`bullets, this`gameOver, this`levelCompleted, this`showingExplosion
      modifies this`score, this`mouseControlEnabled, this`planeAutoSpeedX, this`maxVelocity
      ensures ResetFrom(old(Current()))
      ensures plane.width == planeWidth && plane.height == planeHeight
    {
      plane := new Plane(100, HEIGHT / 2, planeWidth, planeHeight);
      bullets := [];
      gameOver := false;
      levelCompleted := false;
      showingExplosion := false;
      score := 0;
      mouseControlEnabled := true;
      ApplyDifficultySettings();
    }

    /** advanceToNextLevel: EASY to MEDIUM, MEDIUM to HARD, HARD stays; then reset. */
    method AdvanceToNextLevel()
      requires 0 <= selectedLevelIndex < 3 && currentDifficulty == Values()[selectedLevelIndex]
      modifies this`currentDifficulty, this`selectedLevelIndex
      modifies this`plane, this`bullets, this`gameOver, this`levelCompleted, this`showingExplosion
      modifies this`score, this`mouseControlEnabled, this`planeAutoSpeedX, this`maxVelocity
      ensures ResetFrom(NextLevel(old(Current())))
      ensures plane.width == planeWidth && plane.height == planeHeight
      ensures 0 <= selectedLevelIndex < 3 && currentDifficulty == Values()[selectedLevelIndex]
    {
      if currentDifficulty == EASY {
        currentDifficulty := MEDIUM;
        selectedLevelIndex := 1;
      } else if currentDifficulty == MEDIUM {
        currentDifficulty := HARD;
        selectedLevelIndex := 2;
      }
      ResetGame();
    }

    /** Leave the level-select screen and start a fresh game at the selected difficulty. */
    method StartGame()
      requires showLevelSelect
      modifies this`showLevelSelect
      modifies this`plane, this`bullets, this`gameOver, this`levelCompleted, this`showingExplosion
      modifies this`score, this`mouseControlEnabled, this`planeAutoSpeedX, this`maxVelocity
      ensures ResetFrom(old(Current()).(showLevelSelect := false))
      ensures plane.width == planeWidth && plane.height == planeHeight
    {
      showLevelSelect := false;
      ResetGame();
    }

    /** Select level i on the level-select screen. */
    method SelectLevel(i: nat)
      requires i < 3
      modifies this`selectedLevelIndex, this`currentDifficulty
      ensures selectedLevelIndex == i && currentDifficulty == Values()[i]
    {
      selectedLevelIndex := i;
      currentDifficulty := Values()[i];
    }

    /**
     * handleLevelSelectInput: UP and DOWN move the selection within the three
     * levels, ENTER starts the game, other keys do nothing.
     */
    method HandleLevelSelectInput(key: Key)
      requires Valid() && showLevelSelect
      modifies this`selectedLevelIndex, this`currentDifficulty, this`showLevelSelect
      modifies this`plane, this`bullets, this`gameOver, this`levelCompleted, this`showingExplosion
      modifies this`score, this`mouseControlEnabled, this`planeAutoSpeedX, this`maxVelocity
      ensures Valid()
      ensures LevelSelectKeyDone(key)
    {
      if key == Up {
        SelectLevel(if 0 < selectedLevelIndex - 1 then selectedLevelIndex - 1 else 0);
      } else if key == Down {
        SelectLevel(if 2 < selectedLevelIndex + 1 then 2 else selectedLevelIndex + 1);
      } else if key == Enter {
        StartGame();
      }
    }

    /**
     * What a key does on the level-select screen: UP and DOWN select the level
     * above or below (stopping at the ends) and change nothing else, ENTER
     * leaves the screen and resets the game, any other key changes nothing.
     */
    twostate predicate LevelSelectKeyDone(key: Key)
      reads this, plane
    {
      var s := old(Current());
      if key == Up || key == Down then
        var i := if key == Up then (if s.levelIndex - 1 < 0 then 0 else s.levelIndex - 1)
                 else (if s.levelIndex + 1 > 2 then 2 else s.levelIndex + 1);
        0 <= i < 3 && Current() == s.(levelIndex := i, difficulty := Values()[i])
      else if key == Enter then ResetFrom(s.(showLevelSelect := false))
      else unchanged(this)
    }

    /** handleMouseClick on the level-select screen: a level button, then START. */
    method LevelSelectClick(p: Point)
      requires Valid() && showLevelSelect
      modifies this`selectedLevelIndex, this`currentDifficulty, this`showLevelSelect
      modifies this`plane, this`bullets, this`gameOver, this`levelCompleted, this`showingExplosion
      modifies this`score, this`mouseControlEnabled, this`planeAutoSpeedX, this`maxVelocity
      ensures Valid()
      ensures LevelSelectClickDone(p)
    {
      var level := LevelButtonAt(p);
      if level.Some? {
        SelectLevel(level.value);
        return;
      }
      if Contains(StartButton(), p) {
        StartGame();
      }
    }

    /**
     * What a click does on the level-select screen: a level button selects that
     * level and changes nothing else, START leaves the screen and resets the
     * game, anywhere else nothing changes.
     */
    twostate predicate LevelSelectClickDone(p: Point)
      reads this, plane
    {
      var s := old(Current());
      && (forall i :: 0 <= i < 3 && Contains(LevelButton(i), p) ==>
            Current() == s.(levelIndex := i, difficulty := Values()[i]))
      && (Contains(StartButton(), p) ==> ResetFrom(s.(showLevelSelect := false)))
      && ((forall i :: 0 <= i < 3 ==> !Contains(LevelButton(i), p)) && !Contains(StartButton(), p) ==>
            unchanged(this))
    }

    /** The pause menu: row 0 resumes, row 1 opens the level select, row 2 toggles mouse control. */
    method PauseMenuSelect(row: nat)
      requires row < 3
      modifies this`isPaused, this`showLevelSelect, this`mouseControlEnabled
      ensures MenuDone(PauseMenu, Some(row))
    {
      if row == 0 {
        isPaused := false;
      } else if row == 1 {
        showLevelSelect := true;
      } else {
        mouseControlEnabled := !mouseControlEnabled;
      }
    }

    /** The game-over menu: row 0 restarts, row 1 opens the level select, row 2 toggles mouse control. */
    method GameOverMenuSelect(row: nat)
      requires row < 3
      requires plane.width == planeWidth && plane.height == planeHeight
      modifies this`showLevelSelect
      modifies this`plane, this`bullets, this`gameOver, this`levelCompleted, this`showingExplosion
      modifies this`score, this`mouseControlEnabled, this`planeAutoSpeedX, this`maxVelocity
      ensures MenuDone(GameOverMenu, Some(row))
      ensures plane.width == planeWidth && plane.height == planeHeight
    {
      if row == 0 {
        ResetGame();
      } else if row == 1 {
        showLevelSelect := true;
      } else {
        mouseControlEnabled := !mouseControlEnabled;
      }
    }

    /** The level-completed menu: row 0 goes to the next level, row 1 restarts, row 2 opens the level select. */
    method LevelCompletedMenuSelect(row: nat)
      requires row < 3
      requires plane.width == planeWidth && plane.height == planeHeight
      requires 0 <= selectedLevelIndex < 3 && currentDifficulty == Values()[selectedLevelIndex]
      modifies this`showLevelSelect, this`currentDifficulty, this`selectedLevelIndex
      modifies this`plane, this`bullets, this`gameOver, this`levelCompleted, this`showingExplosion
      modifies this`score, this`mouseControlEnabled, this`planeAutoSpeedX, this`maxVelocity
      ensures MenuDone(LevelCompletedMenu, Some(row))
      ensures 0 <= selectedLevelIndex < 3 && currentDifficulty == Values()[selectedLevelIndex]
      ensures plane.width == planeWidth && plane.height == planeHeight
    {
      if row == 0 {
        AdvanceToNextLevel();
      } else if row == 1 {
        ResetGame();
      } else {
        showLevelSelect := true;
      }
    }

    /** Carry out row `row` of the menu on screen s; no row does nothing. */
    method MenuSelect(s: Screen, row: Option<nat>)
      requires Valid() && s == CurrentScreen() && s.IsMenu()
      requires row.Some? ==> row.value < 3
      modifies this`isPaused, this`showLevelSelect, this`currentDifficulty, this`selectedLevelIndex
      modifies this`plane, this`bullets, this`gameOver, this`levelCompleted, this`showingExplosion
      modifies this`score, this`mouseControlEnabled, this`planeAutoSpeedX, this`maxVelocity
      ensures Valid()
      ensures MenuDone(s, row)
    {
      if row.Some? {
        match s {
          case PauseMenu => PauseMenuSelect(row.value);
          case GameOverMenu => GameOverMenuSelect(row.value);
          case LevelCompletedMenu => LevelCompletedMenuSelect(row.value);
        }
      }
    }

    /**
     * The effect of row `row` of the menu on screen s, the same whether the row
     * was clicked or chosen by its key, as the new status in terms of the old:
     * pause menu: resume, level select, toggle mouse control; game-over menu:
     * reset, level select, toggle mouse control; level-completed menu: next
     * level and reset, reset, level select. No row changes nothing.
     */
    twostate predicate MenuDone(s: Screen, row: Option<nat>)
      reads this, plane
    {
      var o := old(Current());
      match row
      case None => unchanged(this)
      case Some(r) =>
        match s
        case PauseMenu =>
          Current() == (if r == 0 then o.(isPaused := false)
                        else if r == 1 then o.(showLevelSelect := true)
                        else o.(mouseControl := !o.mouseControl))
        case GameOverMenu =>
          if r == 0 then ResetFrom(o)
          else Current() == (if r == 1 then o.(showLevelSelect := true) else o.(mouseControl := !o.mouseControl))
        case LevelCompletedMenu =>
          if r == 0 then ResetFrom(NextLevel(o))
          else if r == 1 then ResetFrom(o)
          else Current() == o.(showLevelSelect := true)
        case _ => false
    }

    /**
     * keyPressed while playing: P pauses, ESC opens the level select, M toggles
     * mouse control; with mouse control off the arrows push the plane by the
     * acceleration, capped at the maximum velocity.
     */
    method PlayingKey(key: Key)
      requires Valid()
      modifies this`isPaused, this`showLevelSelect, this`mouseControlEnabled, plane`velocityX, plane`velocityY
      ensures Valid()
      ensures PlayingKeyDone(key)
    {
      Toggle(key);
      if !mouseControlEnabled {
        Steer(key);
      }
    }

    /** P pauses, ESC opens the level select, M toggles mouse control. */
    method Toggle(key: Key)
      modifies this`isPaused, this`showLevelSelect, this`mouseControlEnabled
      ensures Current() == old(Current()).(isPaused := old(isPaused) || key == P,
                                           showLevelSelect := old(showLevelSelect) || key == Escape,
                                           mouseControl := old(mouseControlEnabled) != (key == M))
    {
      if key == P {
        isPaused := true;
      } else if key == Escape {
        showLevelSelect := true;
      } else if key == M {
        mouseControlEnabled := !mouseControlEnabled;
      }
    }

    /** The arrow keys with mouse control off: push the plane by the acceleration, capped at the maximum velocity. */
    method Steer(key: Key)
      modifies plane`velocityX, plane`velocityY
      ensures Current() == old(Current()) && unchanged(plane`x, plane`y, plane`exploding)
      ensures plane.velocityY == (if key == Up then ThrustNegative(old(plane.velocityY), maxVelocity)
                                  else if key == Down then ThrustPositive(old(plane.velocityY), maxVelocity)
                                  else old(plane.velocityY))
      ensures plane.velocityX == (if key == Left then ThrustNegative(old(plane.velocityX), maxVelocity)
                                  else if key == Right then ThrustPositive(old(plane.velocityX), maxVelocity)
                                  else old(plane.velocityX))
    {
      if key == Up {
        plane.SetVelocityY(ThrustNegative(plane.velocityY, maxVelocity));
      } else if key == Down {
        plane.SetVelocityY(ThrustPositive(plane.velocityY, maxVelocity));
      } else if key == Left {
        plane.SetVelocityX(ThrustNegative(plane.velocityX, maxVelocity));
      } else if key == Right {
        plane.SetVelocityX(ThrustPositive(plane.velocityX, maxVelocity));
      }
    }

    /**
     * keyPressed: on the level-select screen handleLevelSelectInput; on a menu
     * the row the key stands for; while playing PlayingKey; during the
     * explosion nothing. No key touches the scores or the explosion timer.
     */
    method KeyPressed(key: Key)
      requires Valid()
      modifies this`isPaused, this`showLevelSelect, this`currentDifficulty, this`selectedLevelIndex
      modifies this`plane, this`bullets, this`gameOver, this`levelCompleted, this`showingExplosion
      modifies this`score, this`mouseControlEnabled, this`planeAutoSpeedX, this`maxVelocity
      modifies plane`velocityX, plane`velocityY
      ensures Valid()
      ensures KeyDone(old(CurrentScreen()), key)
      ensures old(CurrentScreen()) != Playing ==> unchanged(old(plane))
      ensures highScores == old(highScores) && scoreFile == old(scoreFile)
      ensures explosionTimerRunning == old(explosionTimerRunning)
    {
      var screen := CurrentScreen();
      if screen == LevelSelect {
        HandleLevelSelectInput(key);
      } else if screen.IsMenu() {
        MenuSelect(screen, KeyRow(screen, key));
      } else if screen == Playing {
        PlayingKey(key);
      }
    }

    /** What a key pressed on screen s does. */
    twostate predicate KeyDone(s: Screen, key: Key)
      reads this, plane
    {
      match s
      case LevelSelect => LevelSelectKeyDone(key)
      case Playing => PlayingKeyDone(key)
      case Exploding => unchanged(this)
      case _ => MenuDone(s, KeyRow(s, key))
    }

    /**
     * What a key does while playing: P, ESC and M set their flag and change
     * nothing else of the status; the plane stays where it is; with mouse
     * control off an arrow key thrusts along its axis, and every other velocity
     * is kept.
     */
    twostate predicate PlayingKeyDone(key: Key)
      reads this, plane
    {
      var o := old(Current());
      && Current() == o.(isPaused := o.isPaused || key == P, showLevelSelect := o.showLevelSelect || key == Escape,
                         mouseControl := o.mouseControl != (key == M))
      && plane.x == old(plane.x) && plane.y == old(plane.y) && plane.exploding == old(plane.exploding)
      && plane.velocityY == (if mouseControlEnabled then old(plane.velocityY)
                             else if key == Up then ThrustNegative(old(plane.velocityY), maxVelocity)
                             else if key == Down then ThrustPositive(old(plane.velocityY), maxVelocity)
                             else old(plane.velocityY))
      && plane.velocityX == (if mouseControlEnabled then old(plane.velocityX)
                             else if key == Left then ThrustNegative(old(plane.velocityX), maxVelocity)
                             else if key == Right then ThrustPositive(old(plane.velocityX), maxVelocity)
                             else old(plane.velocityX))
    }

    /**
     * handleMouseClick: on the level-select screen LevelSelectClick; on a menu
     * the row under the mouse; elsewhere nothing.
     */
    method HandleMouseClick(p: Point)
      requires Valid()
      modifies this`isPaused, this`showLevelSelect, this`currentDifficulty, this`selectedLevelIndex
      modifies this`plane, this`bullets, this`gameOver, this`levelCompleted, this`showingExplosion
      modifies this`score, this`mouseControlEnabled, this`planeAutoSpeedX, this`maxVelocity
      ensures Valid()
      ensures old(CurrentScreen()) == LevelSelect ==> LevelSelectClickDone(p)
      ensures old(CurrentScreen()).IsMenu() ==> MenuDone(old(CurrentScreen()), MenuRowAt(p))
      ensures old(CurrentScreen()) in {Playing, Exploding} ==> unchanged(this)
      ensures highScores == old(highScores) && scoreFile == old(scoreFile)
      ensures explosionTimerRunning == old(explosionTimerRunning)
    {
      var screen := CurrentScreen();
      if screen == LevelSelect {
        LevelSelectClick(p);
      } else if screen.IsMenu() {
        MenuSelect(screen, MenuRowAt(p));
      }
    }

    /** The focus listener: losing focus during play pauses the game. */
    method FocusLost()
      modifies this`isPaused
      ensures isPaused == (old(isPaused) || (!showLevelSelect && !gameOver && !levelCompleted))
    {
      if !showLevelSelect && !gameOver && !levelCompleted && !isPaused {
        isPaused := true;
      }
    }

    /** The explosion timer's one event: the explosion is over and the timer stops. */
    method ExplosionTimerFires()
      requires explosionTimerRunning
      modifies this`showingExplosion, this`explosionTimerRunning
      ensures !showingExplosion && !explosionTimerRunning
    {
      showingExplosion := false;
      explosionTimerRunning := false;
    }
  }
}
