/**
 * The Difficulty enum of Game.java and every constant the game looks up by
 * difficulty: plane auto-scroll speed and maximum velocity, score multiplier,
 * bullet spawn chance and bullet speed, and the level-completion threshold.
 */
module Difficulties {

  import opened Wrappers

  datatype Difficulty = EASY | MEDIUM | HARD

  /** `Difficulty.values()`, in declaration order. */
  function Values(): (vs: seq<Difficulty>)
    ensures |vs| == 3
  {
    [EASY, MEDIUM, HARD]
  }

  /** `ordinal()`: the position of a difficulty in Values(). */
  function Ordinal(d: Difficulty): (i: nat)
    ensures i < 3 && Values()[i] == d
  {
    match d
    case EASY => 0
    case MEDIUM => 1
    case HARD => 2
  }

  /** `name()`: the constant's identifier, also used in the high-score file. */
  function Name(d: Difficulty): (n: string)
    ensures |n| >= 4 && forall i :: 0 <= i < |n| ==> 'A' <= n[i] <= 'Z'
  {
    match d
    case EASY => "EASY"
    case MEDIUM => "MEDIUM"
    case HARD => "HARD"
  }

  /** `Difficulty.valueOf`: the exact name, or an IllegalArgumentException (None). */
  function ValueOf(s: string): (r: Option<Difficulty>)
    ensures r.Some? ==> Name(r.value) == s
  {
    if s == "EASY" then Some(EASY)
    else if s == "MEDIUM" then Some(MEDIUM)
    else if s == "HARD" then Some(HARD)
    else None
  }

  lemma ValueOfName(d: Difficulty)
    ensures ValueOf(Name(d)) == Some(d)
  {
  }

  /** Horizontal drift added to the plane each tick (applyDifficultySettings). */
  function AutoSpeedX(d: Difficulty): (v: int)
    ensures v == Ordinal(d) + 2
  {
    match d
    case EASY => 2
    case MEDIUM => 3
    case HARD => 4
  }

  /** Cap on the plane's keyboard and mouse velocity (applyDifficultySettings). */
  function MaxVelocity(d: Difficulty): (v: int)
    ensures v == Ordinal(d) + 5
  {
    match d
    case EASY => 5
    case MEDIUM => 6
    case HARD => 7
  }

  /** Points added per simulated tick (getScoreMultiplier). */
  function ScoreMultiplier(d: Difficulty): (m: int)
    ensures m == Ordinal(d) + 1
  {
    match d
    case EASY => 1
    case MEDIUM => 2
    case HARD => 3
  }

  /** Percentage chance per tick that a bullet spawns (spawnBullets). */
  function SpawnRate(d: Difficulty): (p: int)
    ensures 0 < p < 100
  {
    match d
    case EASY => 3
    case MEDIUM => 5
    case HARD => 8
  }

  /** Horizontal velocity given to a freshly spawned bullet (spawnBullets). */
  function BulletSpeed(d: Difficulty): (v: int)
    ensures v < 0
  {
    match d
    case EASY => -6
    case MEDIUM => -8
    case HARD => -12
  }

  const MEDIUM_THRESHOLD := 500
  const HARD_THRESHOLD := 1000

  /** checkLevelProgression: the score that completes a level; HARD has none. */
  function CompletionThreshold(d: Difficulty): (t: Option<int>)
    ensures t.Some? <==> d != HARD
    ensures t.Some? ==> t.value == MEDIUM_THRESHOLD * (Ordinal(d) + 1)
  {
    match d
    case EASY => Some(MEDIUM_THRESHOLD)
    case MEDIUM => Some(HARD_THRESHOLD)
    case HARD => None
  }

  /** True when a score completes the level at difficulty d. */
  predicate LevelReached(d: Difficulty, score: int): (r: bool)
    ensures r <==> Next(d) != d && score >= MEDIUM_THRESHOLD * Ordinal(Next(d))
  {
    CompletionThreshold(d).Some? && score >= CompletionThreshold(d).value
  }

  /** advanceToNextLevel: EASY to MEDIUM to HARD, and HARD stays HARD. */
  function Next(d: Difficulty): (n: Difficulty)
    ensures Ordinal(n) == if d == HARD then 2 else Ordinal(d) + 1
  {
    match d
    case EASY => MEDIUM
    case MEDIUM => HARD
    case HARD => HARD
  }

  /** Every constant grows with the difficulty (bullets grow faster, i.e. more negative). */
  lemma HarderIsHarder(a: Difficulty, b: Difficulty)
    requires Ordinal(a) <= Ordinal(b)
    ensures AutoSpeedX(a) <= AutoSpeedX(b) && MaxVelocity(a) <= MaxVelocity(b)
    ensures ScoreMultiplier(a) <= ScoreMultiplier(b) && SpawnRate(a) <= SpawnRate(b)
    ensures BulletSpeed(b) <= BulletSpeed(a)
  {
  }

  /** HARD never completes, whatever the score. */
  lemma HardNeverCompletes(score: int)
    ensures !LevelReached(HARD, score)
  {
  }
}
