/**
 * A bullet (Bullet.java): a horizontal position that moves by a fixed velocity on
 * every update, a vertical position fixed at construction, and the size of its image.
 */
module Bullets {

  import opened Geometry

  /** The velocity every bullet is constructed with: eight pixels to the left per update. */
  const DEFAULT_VELOCITY := -8

  class Bullet {
    var x: int
    /** There is no setter for y: it keeps its constructed value. */
    const y: int
    var velocityX: int
    const width: int
    const height: int

    constructor (x: int, y: int, width: int, height: int)
      ensures this.x == x && this.y == y
      ensures this.width == width && this.height == height
      ensures velocityX == DEFAULT_VELOCITY
    {
      this.x := x;
      this.y := y;
      this.width := width;
      this.height := height;
      velocityX := DEFAULT_VELOCITY;
    }

    /** update: one step of the bullet's motion. */
    method Update()
      modifies this`x
      ensures x == PositionAfter(old(x), velocityX, 1)
    {
      x := x + velocityX;
    }

    /**
     * The setter Game.java calls to give a bullet its difficulty's speed; the
     * Bullet.java of the repository does not declare it.
     */
    method SetVelocityX(v: int)
      modifies this`velocityX
      ensures velocityX == v
    {
      velocityX := v;
    }

    /**
     * getBounds: the rectangle of the image at (x, y); an image with no pixels
     * collides with nothing, not even itself.
     */
    function Bounds(): (r: Rect)
      reads this`x
      ensures Intersects(r, r) <==> width > 0 && height > 0
    {
      Rect(x, y, width, height)
    }
  }

  /** The x a bullet reaches from x0 after n updates at velocity v. */
  function PositionAfter(x0: int, v: int, n: nat): int
    decreases n
  {
    if n == 0 then x0 else PositionAfter(x0, v, n - 1) + v
  }

  lemma {:induction false} PositionAfterClosedForm(x0: int, v: int, n: nat)
    ensures PositionAfter(x0, v, n) == x0 + v * n
    decreases n
  {
    if n > 0 {
      PositionAfterClosedForm(x0, v, n - 1);
    }
  }

  /** With the default velocity a bullet is at x0 - 8n after n updates, strictly moving left. */
  lemma DefaultVelocityMovesLeft(x0: int, n: nat)
    ensures PositionAfter(x0, DEFAULT_VELOCITY, n) == x0 - 8 * n
    ensures n > 0 ==> PositionAfter(x0, DEFAULT_VELOCITY, n) < PositionAfter(x0, DEFAULT_VELOCITY, n - 1)
  {
    PositionAfterClosedForm(x0, DEFAULT_VELOCITY, n);
  }
}
