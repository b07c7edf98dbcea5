/**
 * The player's plane (Plane.java): an integer position, a velocity per axis, the
 * exploding flag, and the size of its image. Doubles are modelled as exact reals.
 */
module Planes {

  import opened Geometry

  class Plane {
    var x: int
    var y: int
    var velocityX: real
    var velocityY: real
    var exploding: bool
    /** The image's width and height; the image is never replaced, so neither changes. */
    const width: int
    const height: int

    constructor (x: int, y: int, width: int, height: int)
      ensures this.x == x && this.y == y
      ensures this.width == width && this.height == height
      ensures velocityX == 0.0 && velocityY == 0.0 && !exploding
    {
      this.x := x;
      this.y := y;
      this.width := width;
      this.height := height;
      velocityX := 0.0;
      velocityY := 0.0;
      exploding := false;
    }

    /**
     * getBounds: the rectangle of the image at (x, y); an image with no pixels
     * collides with nothing, not even itself.
     */
    function Bounds(): (r: Rect)
      reads this`x, this`y
      ensures Intersects(r, r) <==> width > 0 && height > 0
    {
      Rect(x, y, width, height)
    }

    method SetX(x: int)
      modifies this`x
      ensures this.x == x
    {
      this.x := x;
    }

    method SetY(y: int)
      modifies this`y
      ensures this.y == y
    {
      this.y := y;
    }

    method SetVelocityX(v: real)
      modifies this`velocityX
      ensures velocityX == v
    {
      velocityX := v;
    }

    method SetVelocityY(v: real)
      modifies this`velocityY
      ensures velocityY == v
    {
      velocityY := v;
    }

    method SetExploding(exploding: bool)
      modifies this`exploding
      ensures this.exploding == exploding
    {
      this.exploding := exploding;
    }
  }
}
