/**
 * The player sprite's motion rules (Player.cpp): keys W, S, A and D
 * accelerate it, its position then advances by the new velocity, and the
 * edge check keeps its box on the screen by clamping and bouncing.
 * Key polling becomes a `Keys` parameter; `PlaySound` becomes the count of
 * bounces `ConstrainToBounds` returns.
 */
module PlayerMotion {
  import opened Geometry

  /** `ACCELERATION` of Player.h, in pixels per second squared. */
  const Acceleration: real := 1000.0

  /** Which of W (up), S (down), A (left) and D (right) are held during a frame. */
  datatype Keys = Keys(up: bool, down: bool, left: bool, right: bool)

  /** The direction one pair of opposing keys pushes along its axis: -1, 0 or 1. */
  function Push(negative: bool, positive: bool): (d: real)
    ensures d == -1.0 || d == 0.0 || d == 1.0
    ensures d == 0.0 <==> negative == positive
    ensures d == 1.0 <==> positive && !negative
  {
    (if positive then 1.0 else 0.0) - (if negative then 1.0 else 0.0)
  }

  /** The direction the held keys push the player in (y grows downwards, as on screen). */
  function Thrust(keys: Keys): (t: Vec2)
    ensures t.x == Push(keys.left, keys.right) && t.y == Push(keys.up, keys.down)
  {
    Vec2(Push(keys.left, keys.right), Push(keys.up, keys.down))
  }

  /**
   * Where one axis of the edge check leaves the player: the final coordinate,
   * the final velocity component and how many of the two checks fired.
   */
  datatype Bounce = Bounce(pos: real, vel: real, hits: nat)

  /**
   * One axis of `ConstrainToBounds`: the low-edge check against 0, then, on
   * the value it leaves, the high-edge check against `limit`. Each check
   * that fires clamps the coordinate, negates the velocity and counts once.
   */
  function Confine(p: real, v: real, half: real, limit: real): (b: Bounce)
    // the box already lies within [0, limit]: nothing happens, and only then
    ensures b.hits == 0 <==> 0.0 <= p - half && p + half <= limit
    ensures b.hits == 0 ==> b.pos == p && b.vel == v
    // a low-edge violation on a box that fits sets the centre to `half` and negates v
    ensures p - half < 0.0 && half + half <= limit ==> b == Bounce(half, -v, 1)
    // a high-edge violation alone sets the centre to `limit - half` and negates v
    ensures 0.0 <= p - half && p + half > limit ==> b == Bounce(limit - half, -v, 1)
    // a box that fits ends inside the screen
    ensures half + half <= limit ==> half <= b.pos <= limit - half
    // a box wider than the screen that trips the low edge trips the high edge as well
    ensures p - half < 0.0 && half + half > limit ==> b == Bounce(limit - half, v, 2)
    // each check that fires negates the velocity once
    ensures b.hits <= 2 && b.vel == (if b.hits == 1 then -v else v)
  {
    var low := if p - half < 0.0 then Bounce(half, -v, 1) else Bounce(p, v, 0);
    if low.pos + half > limit then Bounce(limit - half, -low.vel, low.hits + 1) else low
  }

  class Player {
    var position: Vec2
    var velocity: Vec2
    /** Width and height of the sprite's box; `position` is its centre. */
    const size: Vec2

    /** `Player::Player`: at rest at `initialPosition`. */
    constructor (initialPosition: Vec2, size: Vec2)
      ensures position == initialPosition && velocity == Vec2(0.0, 0.0) && this.size == size
    {
      position := initialPosition;
      velocity := Vec2(0.0, 0.0);
      this.size := size;
    }

    /**
     * `Player::Move` without the rotation: each held key changes the matching
     * velocity component by `Acceleration * dt` (opposite keys cancel), then
     * the position advances by the new velocity times `dt`.
     */
    method Move(dt: real, keys: Keys)
      modifies this
      ensures velocity == Add(old(velocity), Scale(Thrust(keys), Acceleration * dt))
      ensures position == Add(old(position), Scale(velocity, dt))
      ensures keys.up == keys.down ==> velocity.y == old(velocity.y)
      ensures keys.left == keys.right ==> velocity.x == old(velocity.x)
    {
      if keys.up { velocity := velocity.(y := velocity.y - Acceleration * dt); }
      if keys.down { velocity := velocity.(y := velocity.y + Acceleration * dt); }
      if keys.left { velocity := velocity.(x := velocity.x - Acceleration * dt); }
      if keys.right { velocity := velocity.(x := velocity.x + Acceleration * dt); }
      position := Vec2(position.x + velocity.x * dt, position.y + velocity.y * dt);
    }

    /**
     * `Player::ConstrainToBounds`: the x checks against `screenWidth`, then
     * the y checks against `screenHeight`; `bounces` counts the sounds played.
     * Each axis reads and writes only its own components.
     */
    method ConstrainToBounds(screenWidth: int, screenHeight: int) returns (bounces: nat)
      modifies this
      ensures var cx := Confine(old(position.x), old(velocity.x), size.x / 2.0, screenWidth as real);
              var cy := Confine(old(position.y), old(velocity.y), size.y / 2.0, screenHeight as real);
              position == Vec2(cx.pos, cy.pos) && velocity == Vec2(cx.vel, cy.vel) && bounces == cx.hits + cy.hits
      ensures size.x <= screenWidth as real ==> size.x / 2.0 <= position.x <= screenWidth as real - size.x / 2.0
      ensures size.y <= screenHeight as real ==> size.y / 2.0 <= position.y <= screenHeight as real - size.y / 2.0
    {
      var halfWidth := size.x / 2.0;
      var halfHeight := size.y / 2.0;
      bounces := 0;
      if position.x - halfWidth < 0.0 {
        position := position.(x := halfWidth);
        velocity := velocity.(x := -velocity.x);
        bounces := bounces + 1;
      }
      if position.x + halfWidth > screenWidth as real {
        position := position.(x := screenWidth as real - halfWidth);
        velocity := velocity.(x := -velocity.x);
        bounces := bounces + 1;
      }
      if position.y - halfHeight < 0.0 {
        position := position.(y := halfHeight);
        velocity := velocity.(y := -velocity.y);
        bounces := bounces + 1;
      }
      if position.y + halfHeight > screenHeight as real {
        position := position.(y := screenHeight as real - halfHeight);
        velocity := velocity.(y := -velocity.y);
        bounces := bounces + 1;
      }
    }

    /** `Player::Update`: `Move`, then `ConstrainToBounds` on the moved state. */
    method Update(dt: real, screenWidth: int, screenHeight: int, keys: Keys) returns (bounces: nat)
      modifies this
      ensures var v := Add(old(velocity), Scale(Thrust(keys), Acceleration * dt));
              var p := Add(old(position), Scale(v, dt));
              var cx := Confine(p.x, v.x, size.x / 2.0, screenWidth as real);
              var cy := Confine(p.y, v.y, size.y / 2.0, screenHeight as real);
              position == Vec2(cx.pos, cy.pos) && velocity == Vec2(cx.vel, cy.vel) && bounces == cx.hits + cy.hits
      ensures size.x <= screenWidth as real ==> size.x / 2.0 <= position.x <= screenWidth as real - size.x / 2.0
      ensures size.y <= screenHeight as real ==> size.y / 2.0 <= position.y <= screenHeight as real - size.y / 2.0
    {
      Move(dt, keys);
      bounces := ConstrainToBounds(screenWidth, screenHeight);
    }
  }
}
