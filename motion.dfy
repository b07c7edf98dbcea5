/**
 * The arithmetic of Game.updatePlane and of the keyboard thrust, on values: the
 * (int) cast of a double position, the per-tick deceleration, the clamp to the
 * play field, the auto-scroll drift and the wrap back to the left edge. Doubles
 * are modelled as exact reals.
 */
module Motion {

  const WIDTH := 800
  const HEIGHT := 600
  const DECELERATION: real := 0.1
  const ACCELERATION: real := 0.2

  function Abs(r: real): real { if r < 0.0 then -r else r }

  /** Java's (int) cast of a double: rounds toward zero. */
  function TruncateToInt(r: real): (n: int)
    ensures r >= 0.0 ==> n as real <= r < n as real + 1.0
    ensures r < 0.0 ==> n as real - 1.0 < r <= n as real
  {
    if r >= 0.0 then r.Floor else -((-r).Floor)
  }

  /** One tick of deceleration: the speed drops by DECELERATION, stopping at zero. */
  function Decelerate(v: real): (r: real)
    ensures (v >= 0.0 ==> 0.0 <= r) && (v <= 0.0 ==> r <= 0.0)
    ensures Abs(r) == if Abs(v) <= DECELERATION then 0.0 else Abs(v) - DECELERATION
  {
    if v > 0.0 then (if v - DECELERATION < 0.0 then 0.0 else v - DECELERATION)
    else if v < 0.0 then (if v + DECELERATION > 0.0 then 0.0 else v + DECELERATION)
    else v
  }

  /** The outcome of clamping one coordinate: the new value and whether it moved. */
  datatype Clamped = Clamped(pos: int, hit: bool)

  /** updatePlane's bounds check on one axis: below 0 goes to 0, above hi goes to hi. */
  function Clamp(p: int, hi: int): (c: Clamped)
    ensures c.hit <==> p < 0 || p > hi
    ensures !c.hit ==> c.pos == p
    ensures hi >= 0 ==> 0 <= c.pos <= hi
    ensures c.hit && hi >= 0 ==> c.pos == 0 || c.pos == hi
  {
    if p < 0 then Clamped(0, true)
    else if p > hi then Clamped(hi, true)
    else Clamped(p, false)
  }

  datatype PlaneState = PlaneState(x: int, y: int, vx: real, vy: real)

  /** True when the auto-scroll of this tick carries the plane past the right edge. */
  predicate Wraps(s: PlaneState, w: int, autoSpeed: int) {
    Clamp(TruncateToInt(s.x as real + s.vx), WIDTH - w).pos + autoSpeed > WIDTH
  }

  /**
   * updatePlane: move by the velocity, decelerate, clamp both axes (zeroing the
   * velocity of a clamped axis), drift right by autoSpeed, and wrap to
   * (0, HEIGHT / 2) once past the right edge.
   */
  function Step(s: PlaneState, w: int, h: int, autoSpeed: int): (r: PlaneState)
    ensures Abs(r.vx) <= Abs(s.vx) && Abs(r.vy) <= Abs(s.vy)
    ensures Wraps(s, w, autoSpeed) ==> r.x == 0 && r.y == HEIGHT / 2
    ensures w <= WIDTH && 0 <= autoSpeed ==> 0 <= r.x <= WIDTH - w + autoSpeed
    ensures h <= HEIGHT && !Wraps(s, w, autoSpeed) ==> 0 <= r.y <= HEIGHT - h
    ensures 0 <= autoSpeed <= w <= WIDTH ==> !Wraps(s, w, autoSpeed) && autoSpeed <= r.x
    ensures Clamp(TruncateToInt(s.x as real + s.vx), WIDTH - w).hit ==> r.vx == 0.0
    ensures Clamp(TruncateToInt(s.y as real + s.vy), HEIGHT - h).hit ==> r.vy == 0.0
  {
    var cy := Clamp(TruncateToInt(s.y as real + s.vy), HEIGHT - h);
    var cx := Clamp(TruncateToInt(s.x as real + s.vx), WIDTH - w);
    var vy := if cy.hit then 0.0 else Decelerate(s.vy);
    var vx := if cx.hit then 0.0 else Decelerate(s.vx);
    if cx.pos + autoSpeed > WIDTH then PlaneState(0, HEIGHT / 2, vx, vy)
    else PlaneState(cx.pos + autoSpeed, cy.pos, vx, vy)
  }

  /** A plane at rest inside the field only drifts right by autoSpeed. */
  lemma RestingPlaneDrifts(x: int, y: int, w: int, h: int, autoSpeed: int)
    requires 0 <= x <= WIDTH - w && 0 <= y <= HEIGHT - h && x + autoSpeed <= WIDTH
    ensures Step(PlaneState(x, y, 0.0, 0.0), w, h, autoSpeed) == PlaneState(x + autoSpeed, y, 0.0, 0.0)
  {
  }

  /** The wrap is reachable only for a plane narrower than its drift, such as a 1-pixel one. */
  lemma NarrowPlaneWraps()
    ensures Step(PlaneState(799, 0, 0.0, 0.0), 1, 1, 2) == PlaneState(0, HEIGHT / 2, 0.0, 0.0)
  {
  }

  /** Keyboard thrust up or left: `Math.max(v - acceleration, -max)`. */
  function ThrustNegative(v: real, max: int): (r: real)
    ensures r >= -(max as real) && r >= v - ACCELERATION
    ensures r == v - ACCELERATION || r == -(max as real)
  {
    if v - ACCELERATION > -(max as real) then v - ACCELERATION else -(max as real)
  }

  /** Keyboard thrust down or right: `Math.min(v + acceleration, max)`. */
  function ThrustPositive(v: real, max: int): (r: real)
    ensures r <= max as real && r <= v + ACCELERATION
    ensures r == v + ACCELERATION || r == max as real
  {
    if v + ACCELERATION < max as real then v + ACCELERATION else max as real
  }
}
