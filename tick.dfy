/**
 * One tick of Game.actionPerformed on values. A Frame is the part of the panel
 * a tick reads or writes, with the plane as a PlaneState and each bullet as a
 * Shot (its rectangle and speed). Ticked is the whole tick as a function of
 * the frame, the image sizes and the two random draws, built from one function
 * per phase of the source method; GameModel.Game.Tick is proved to change the
 * live plane, bullets and fields exactly as Ticked says.
 */
module Ticks {

  import opened Wrappers
  import opened Geometry
  import opened Difficulties
  import opened HighScores
  import opened Motion

  /** A bullet as a tick sees it: its position, its image size and its speed. */
  datatype Shot = Shot(x: int, y: int, width: int, height: int, velocityX: int)
  {
    function Bounds(): Rect {
      Rect(x, y, width, height)
    }

    /** updateBullets' removal test: the right edge has passed the left edge of the field. */
    predicate OffScreen() {
      x + width < 0
    }

    /** Bullet.update: one step by the speed. */
    function Updated(): Shot {
      this.(x := x + velocityX)
    }
  }

  /** The plane and bullet image sizes, fixed for a game. */
  datatype Sizes = Sizes(planeWidth: int, planeHeight: int, bulletWidth: int, bulletHeight: int)

  /** The fields of the panel, its plane and its bullets that one tick reads or writes. */
  datatype Frame = Frame(
    difficulty: Difficulty, autoSpeed: int, plane: PlaneState, exploding: bool, shots: seq<Shot>,
    gameOver: bool, showingExplosion: bool, explosionTimer: bool, score: nat, levelCompleted: bool,
    highScores: Table, difficultyScores: Table, file: Option<seq<string>>)

  predicate Distinct<T(==)>(xs: seq<T>) {
    forall i, j :: 0 <= i < j < |xs| ==> xs[i] != xs[j]
  }

  /** Every shot updated once. */
  function UpdateAll(ss: seq<Shot>): (r: seq<Shot>)
    ensures |r| == |ss| && forall i :: 0 <= i < |ss| ==> r[i] == ss[i].Updated()
  {
    seq(|ss|, i requires 0 <= i < |ss| => ss[i].Updated())
  }

  // ---------------------------------------------------------------- the filter

  /**
   * The entries of xs whose shot in ss, at the same index, is not off screen,
   * in order. With xs the bullet objects and ss their moved shots, this is the
   * list updateBullets leaves; Kept(ss, ss) is the surviving shots themselves.
   */
  function Kept<T>(xs: seq<T>, ss: seq<Shot>): (r: seq<T>)
    requires |xs| == |ss|
    ensures |r| <= |xs|
    decreases |xs|
  {
    if |xs| == 0 then []
    else
      var n := |xs| - 1;
      Kept(xs[..n], ss[..n]) + (if ss[n].OffScreen() then [] else [xs[n]])
  }

  /** Filtering one more entry: it is kept, after the others, exactly when its shot is on screen. */
  lemma KeptSnoc<T>(xs: seq<T>, ss: seq<Shot>, x: T, s: Shot)
    requires |xs| == |ss|
    ensures Kept(xs + [x], ss + [s]) == Kept(xs, ss) + (if s.OffScreen() then [] else [x])
  {
    assert (xs + [x])[..|xs|] == xs;
    assert (ss + [s])[..|ss|] == ss;
  }

  /** An entry survives exactly when it sits at an index whose shot is on screen. */
  lemma {:induction false} KeptMembers<T>(xs: seq<T>, ss: seq<Shot>)
    requires |xs| == |ss|
    ensures forall i :: 0 <= i < |xs| && !ss[i].OffScreen() ==> xs[i] in Kept(xs, ss)
    ensures forall x :: x in Kept(xs, ss) ==> exists i :: 0 <= i < |xs| && xs[i] == x && !ss[i].OffScreen()
    decreases |xs|
  {
    if |xs| > 0 {
      var n := |xs| - 1;
      var init, sinit := xs[..n], ss[..n];
      KeptMembers(init, sinit);
      forall i | 0 <= i < n && !ss[i].OffScreen()
        ensures xs[i] in Kept(xs, ss)
      {
        assert init[i] == xs[i] && sinit[i] == ss[i];
      }
      forall x | x in Kept(xs, ss)
        ensures exists i :: 0 <= i < |xs| && xs[i] == x && !ss[i].OffScreen()
      {
        if x in Kept(init, sinit) {
          var i :| 0 <= i < |init| && init[i] == x && !sinit[i].OffScreen();
          assert xs[i] == x && !ss[i].OffScreen();
        } else {
          assert xs[n] == x && !ss[n].OffScreen();
        }
      }
    }
  }

  /**
   * Two lists filtered by the same shots keep the same indices: the i-th
   * survivor of each comes from one index j whose shot is on screen.
   */
  lemma {:induction false} KeptAligned<T, U>(xs: seq<T>, ys: seq<U>, ss: seq<Shot>)
    requires |xs| == |ss| && |ys| == |ss|
    ensures |Kept(xs, ss)| == |Kept(ys, ss)|
    ensures forall i :: 0 <= i < |Kept(xs, ss)| ==>
      exists j :: 0 <= j < |ss| && !ss[j].OffScreen() && Kept(xs, ss)[i] == xs[j] && Kept(ys, ss)[i] == ys[j]
    decreases |ss|
  {
    if |ss| > 0 {
      var n := |ss| - 1;
      KeptAligned(xs[..n], ys[..n], ss[..n]);
      var kx, ky := Kept(xs[..n], ss[..n]), Kept(ys[..n], ss[..n]);
      forall i | 0 <= i < |Kept(xs, ss)|
        ensures exists j :: 0 <= j < |ss| && !ss[j].OffScreen() && Kept(xs, ss)[i] == xs[j] && Kept(ys, ss)[i] == ys[j]
      {
        if i < |kx| {
          var j :| 0 <= j < n && !ss[..n][j].OffScreen() && kx[i] == xs[..n][j] && ky[i] == ys[..n][j];
          assert Kept(xs, ss)[i] == xs[j] && Kept(ys, ss)[i] == ys[j];
        } else {
          assert Kept(xs, ss)[i] == xs[n] && Kept(ys, ss)[i] == ys[n];
        }
      }
    }
  }

  /** The shots that survive are exactly the on-screen ones. */
  lemma SurvivorsOnScreen(ss: seq<Shot>)
    ensures forall s :: s in Kept(ss, ss) <==> s in ss && !s.OffScreen()
  {
    KeptMembers(ss, ss);
  }

  /** Filtering a list of distinct entries keeps them distinct. */
  lemma {:induction false} KeptDistinct<T>(xs: seq<T>, ss: seq<Shot>)
    requires |xs| == |ss| && Distinct(xs)
    ensures Distinct(Kept(xs, ss))
    decreases |xs|
  {
    if |xs| > 0 {
      var n := |xs| - 1;
      KeptDistinct(xs[..n], ss[..n]);
      KeptMembers(xs[..n], ss[..n]);
      assert xs[n] !in Kept(xs[..n], ss[..n]);
    }
  }

  /** Filtering a concatenation filters each part: the survivors keep their order. */
  lemma {:induction false} KeptAppend<T>(a: seq<T>, sa: seq<Shot>, b: seq<T>, sb: seq<Shot>)
    requires |a| == |sa| && |b| == |sb|
    ensures Kept(a + b, sa + sb) == Kept(a, sa) + Kept(b, sb)
    decreases |b|
  {
    if |b| == 0 {
      assert a + b == a && sa + sb == sa;
    } else {
      var n := |b| - 1;
      KeptAppend(a, sa, b[..n], sb[..n]);
      var ab, sab := a + b, sa + sb;
      assert ab[..|a| + n] == a + b[..n] && sab[..|a| + n] == sa + sb[..n];
      assert ab[|a| + n] == b[n] && sab[|a| + n] == sb[n];
      assert Kept(ab, sab) == Kept(a + b[..n], sa + sb[..n]) + (if sb[n].OffScreen() then [] else [b[n]]);
    }
  }

  // ---------------------------------------------------------------- collisions

  /** checkCollisions' scan: some shot's rectangle intersects r. */
  predicate AnyHit(r: Rect, ss: seq<Shot>) {
    exists i :: 0 <= i < |ss| && Intersects(r, ss[i].Bounds())
  }

  /** Scanning the filtered list is testing the on-screen shots of the list before the filter. */
  lemma AnyHitKept(r: Rect, ss: seq<Shot>)
    ensures AnyHit(r, Kept(ss, ss)) <==> exists i :: 0 <= i < |ss| && !ss[i].OffScreen() && Intersects(r, ss[i].Bounds())
  {
    var kept := Kept(ss, ss);
    KeptMembers(ss, ss);
    if AnyHit(r, kept) {
      var j :| 0 <= j < |kept| && Intersects(r, kept[j].Bounds());
      assert kept[j] in kept;
      var i :| 0 <= i < |ss| && ss[i] == kept[j] && !ss[i].OffScreen();
    }
    if exists i :: 0 <= i < |ss| && !ss[i].OffScreen() && Intersects(r, ss[i].Bounds()) {
      var i :| 0 <= i < |ss| && !ss[i].OffScreen() && Intersects(r, ss[i].Bounds());
      assert ss[i] in kept;
      var j :| 0 <= j < |kept| && kept[j] == ss[i];
    }
  }

  // ---------------------------------------------------------------- the phases

  /** The plane's rectangle in frame f. */
  function PlaneRect(f: Frame, z: Sizes): Rect {
    Rect(f.plane.x, f.plane.y, z.planeWidth, z.planeHeight)
  }

  /** updatePlane, then updateBullets: every bullet moves once and those past the left edge go. */
  function Moved(f: Frame, z: Sizes): Frame {
    var moved := UpdateAll(f.shots);
    f.(plane := Step(f.plane, z.planeWidth, z.planeHeight, f.autoSpeed), shots := Kept(moved, moved))
  }

  /**
   * The collision branch of checkCollisions: game over, the plane explodes,
   * the explosion and its timer start, and the score is recorded,
   * max-updated into the high scores, and the table saved.
   */
  function Ended(f: Frame): Frame
    requires Total(f.highScores)
  {
    var hs := MaxUpdate(f.highScores, f.difficulty, f.score);
    MaxUpdateMonotone(f.highScores, f.difficulty, f.score);
    f.(gameOver := true, exploding := true, showingExplosion := true, explosionTimer := true,
       difficultyScores := f.difficultyScores[f.difficulty := f.score], highScores := hs,
       file := Some(FormatTable(hs, Values())))
  }

  /** checkCollisions: the collision branch when some bullet overlaps the plane, otherwise nothing. */
  function Collided(f: Frame, z: Sizes): Frame
    requires Total(f.highScores)
  {
    if AnyHit(PlaneRect(f, z), f.shots) then Ended(f) else f
  }

  /** The first half of a tick: the moves, then the collision check. */
  function Advanced(f: Frame, z: Sizes): Frame
    requires Total(f.highScores)
  {
    Collided(Moved(f, z), z)
  }

  /**
   * spawnBullets: with a roll below the difficulty's spawn rate, one new
   * bullet at the right edge, at height yDraw, with the difficulty's speed.
   */
  function Spawned(f: Frame, z: Sizes, roll: int, yDraw: int): Frame {
    if roll < SpawnRate(f.difficulty) then
      f.(shots := f.shots + [Shot(WIDTH, yDraw, z.bulletWidth, z.bulletHeight, BulletSpeed(f.difficulty))])
    else f
  }

  /** The score increment of a tick. */
  function Scored(f: Frame): Frame {
    f.(score := f.score + ScoreMultiplier(f.difficulty))
  }

  /** checkLevelProgression: at the threshold the level is completed and the score recorded. */
  function Progressed(f: Frame): Frame {
    if LevelReached(f.difficulty, f.score) then
      f.(levelCompleted := true, difficultyScores := f.difficultyScores[f.difficulty := f.score],
         highScores := MaxUpdate(f.highScores, f.difficulty, f.score))
    else f
  }

  /** The second half of a tick: the spawn, the score, then the progression check. */
  function Finished(f: Frame, z: Sizes, roll: int, yDraw: int): Frame {
    Progressed(Scored(Spawned(f, z, roll, yDraw)))
  }

  /** One simulated tick: all phases, in the order of actionPerformed. */
  function Ticked(f: Frame, z: Sizes, roll: int, yDraw: int): Frame
    requires Total(f.highScores)
  {
    Finished(Advanced(f, z), z, roll, yDraw)
  }

  // ---------------------------------------------------------------- what a tick does

  /**
   * The bullets after a tick: every bullet moved once by its speed, those past
   * the left edge dropped and the others kept in order, then exactly one new
   * bullet at the right edge when the roll is below the spawn rate.
   */
  lemma TickShots(f: Frame, z: Sizes, roll: int, yDraw: int)
    requires Total(f.highScores)
    ensures var moved := UpdateAll(f.shots);
      var kept := Kept(moved, moved);
      var t := Ticked(f, z, roll, yDraw);
      && |t.shots| == |kept| + (if roll < SpawnRate(f.difficulty) then 1 else 0)
      && t.shots[..|kept|] == kept
      && (forall s :: s in kept <==> s in moved && !s.OffScreen())
      && (roll < SpawnRate(f.difficulty) ==>
            t.shots[|kept|] == Shot(WIDTH, yDraw, z.bulletWidth, z.bulletHeight, BulletSpeed(f.difficulty)))
  {
    var moved := UpdateAll(f.shots);
    SurvivorsOnScreen(moved);
    var a := Advanced(f, z);
    assert a.shots == Kept(moved, moved);
    assert Ticked(f, z, roll, yDraw).shots == Spawned(a, z, roll, yDraw).shots;
  }

  /**
   * A running tick ends the game exactly when a bullet, moved and still on
   * screen, overlaps the moved plane. Then the plane explodes, the explosion
   * and its timer start, and the file holds the high scores max-updated with
   * the score from before the tick; otherwise none of these change.
   */
  lemma TickHit(f: Frame, z: Sizes, roll: int, yDraw: int)
    requires Total(f.highScores)
    requires !f.gameOver
    ensures var t := Ticked(f, z, roll, yDraw);
      var moved := UpdateAll(f.shots);
      && t.plane == Step(f.plane, z.planeWidth, z.planeHeight, f.autoSpeed)
      && (t.gameOver <==>
            exists i :: 0 <= i < |moved| && !moved[i].OffScreen() && Intersects(PlaneRect(t, z), moved[i].Bounds()))
      && (t.gameOver ==>
            && t.exploding && t.showingExplosion && t.explosionTimer
            && t.file == Some(FormatTable(MaxUpdate(f.highScores, f.difficulty, f.score), Values())))
      && (!t.gameOver ==>
            && t.exploding == f.exploding && t.showingExplosion == f.showingExplosion
            && t.explosionTimer == f.explosionTimer && t.file == f.file)
  {
    var m := Moved(f, z);
    AnyHitKept(PlaneRect(m, z), UpdateAll(f.shots));
    FinishKeepsFlags(Advanced(f, z), z, roll, yDraw);
  }

  /** The second half of a tick leaves the plane, the game-over flags and the file alone. */
  lemma FinishKeepsFlags(a: Frame, z: Sizes, roll: int, yDraw: int)
    ensures var t := Finished(a, z, roll, yDraw);
      && t.plane == a.plane && t.gameOver == a.gameOver && t.exploding == a.exploding
      && t.showingExplosion == a.showingExplosion && t.explosionTimer == a.explosionTimer && t.file == a.file
  {
  }

  /**
   * The scores after a running tick: the score rises by the multiplier; a hit
   * records the score from before the increment, and reaching the threshold
   * completes the level and records the new score, both into the recorded
   * scores and, max-updated, into the high scores.
   */
  lemma TickScores(f: Frame, z: Sizes, roll: int, yDraw: int)
    requires Total(f.highScores)
    requires !f.gameOver
    ensures var t := Ticked(f, z, roll, yDraw);
      var s := f.score + ScoreMultiplier(f.difficulty);
      var ds := if t.gameOver then f.difficultyScores[f.difficulty := f.score] else f.difficultyScores;
      var hs := if t.gameOver then MaxUpdate(f.highScores, f.difficulty, f.score) else f.highScores;
      && t.score == s
      && t.levelCompleted == (f.levelCompleted || LevelReached(f.difficulty, s))
      && t.difficultyScores == (if LevelReached(f.difficulty, s) then ds[f.difficulty := s] else ds)
      && t.highScores == (if LevelReached(f.difficulty, s) then MaxUpdate(hs, f.difficulty, s) else hs)
  {
    AdvanceScores(f, z);
    var a := Advanced(f, z);
    FinishScores(a, z, roll, yDraw);
    FinishKeepsFlags(a, z, roll, yDraw);
  }

  /** The first half of a running tick records the score only on a hit. */
  lemma AdvanceScores(f: Frame, z: Sizes)
    requires Total(f.highScores)
    requires !f.gameOver
    ensures var a := Advanced(f, z);
      && a.score == f.score && a.levelCompleted == f.levelCompleted && a.difficulty == f.difficulty
      && a.difficultyScores == (if a.gameOver then f.difficultyScores[f.difficulty := f.score] else f.difficultyScores)
      && a.highScores == (if a.gameOver then MaxUpdate(f.highScores, f.difficulty, f.score) else f.highScores)
  {
    var m := Moved(f, z);
    assert m.score == f.score && m.difficulty == f.difficulty && !m.gameOver;
    assert m.highScores == f.highScores && m.difficultyScores == f.difficultyScores;
  }

  /** The second half of a tick adds the multiplier, then records a score that reaches the threshold. */
  lemma FinishScores(a: Frame, z: Sizes, roll: int, yDraw: int)
    ensures var t := Finished(a, z, roll, yDraw);
      var s := a.score + ScoreMultiplier(a.difficulty);
      && t.score == s
      && t.levelCompleted == (a.levelCompleted || LevelReached(a.difficulty, s))
      && t.difficultyScores == (if LevelReached(a.difficulty, s) then a.difficultyScores[a.difficulty := s] else a.difficultyScores)
      && t.highScores == (if LevelReached(a.difficulty, s) then MaxUpdate(a.highScores, a.difficulty, s) else a.highScores)
  {
    SpawnKeeps(a, z, roll, yDraw);
    var b := Scored(Spawned(a, z, roll, yDraw));
    assert b == a.(shots := b.shots, score := a.score + ScoreMultiplier(a.difficulty));
  }

  /** spawnBullets changes the bullets and nothing else. */
  lemma SpawnKeeps(a: Frame, z: Sizes, roll: int, yDraw: int)
    ensures Spawned(a, z, roll, yDraw) == a.(shots := Spawned(a, z, roll, yDraw).shots)
  {
  }

  /** A tick changes neither the difficulty nor the drift. */
  lemma TickKeepsSettings(f: Frame, z: Sizes, roll: int, yDraw: int)
    requires Total(f.highScores)
    ensures Ticked(f, z, roll, yDraw).difficulty == f.difficulty
    ensures Ticked(f, z, roll, yDraw).autoSpeed == f.autoSpeed
  {
  }

  /**
   * The flags a tick keeps in step: the plane explodes exactly at game over,
   * the explosion is only shown after game over, and every difficulty has a
   * high score.
   */
  predicate Consistent(f: Frame) {
    && f.exploding == f.gameOver
    && (f.showingExplosion ==> f.gameOver)
    && Total(f.highScores)
  }

  lemma TickKeepsConsistent(f: Frame, z: Sizes, roll: int, yDraw: int)
    requires Consistent(f)
    ensures Consistent(Ticked(f, z, roll, yDraw))
  {
    var a := Advanced(f, z);
    MaxUpdateMonotone(f.highScores, f.difficulty, f.score);
    var b := Scored(Spawned(a, z, roll, yDraw));
    MaxUpdateMonotone(b.highScores, b.difficulty, b.score);
  }

  /** No high score ever decreases over a tick. */
  lemma TickHighScoresGrow(f: Frame, z: Sizes, roll: int, yDraw: int)
    requires Total(f.highScores)
    ensures forall d :: GetOrDefault(f.highScores, d) <= GetOrDefault(Ticked(f, z, roll, yDraw).highScores, d)
  {
    var a := Advanced(f, z);
    AdvanceHighScores(f, z);
    MaxUpdateMonotone(f.highScores, f.difficulty, f.score);
    FinishScores(a, z, roll, yDraw);
    MaxUpdateMonotone(a.highScores, a.difficulty, a.score + ScoreMultiplier(a.difficulty));
  }

  /** The first half of a tick either keeps the high scores or max-updates them with the score. */
  lemma AdvanceHighScores(f: Frame, z: Sizes)
    requires Total(f.highScores)
    ensures var a := Advanced(f, z);
      a.highScores == f.highScores || a.highScores == MaxUpdate(f.highScores, f.difficulty, f.score)
  {
    assert Moved(f, z).highScores == f.highScores;
  }
}
