/**
 * The moving platform (Platform.cpp): every frame its velocity snaps back to
 * its expected velocity, or to the opposite of it when it has been turned
 * against it.
 */
module PlatformMotion {
  import opened Geometry

  /**
   * The velocity `Platform::Update` leaves: `expected` when `v` does not point
   * against it (dot product at least 0), its opposite otherwise.
   */
  function Snap(v: Vec2, expected: Vec2): (r: Vec2)
    ensures r == expected || r == Neg(expected)
    ensures Dot(v, expected) >= 0.0 ==> r == expected
    ensures Dot(v, expected) < 0.0 ==> r == Neg(expected)
    // a platform at rest takes the expected velocity
    ensures v == Vec2(0.0, 0.0) ==> r == expected
  {
    if Dot(v, expected) >= 0.0 then expected else Neg(expected)
  }

  /** A vector other than zero has a positive squared length. */
  lemma SquaredLength(e: Vec2)
    ensures Dot(e, e) >= 0.0
    ensures e != Vec2(0.0, 0.0) ==> Dot(e, e) > 0.0
  {
    calc {
      Dot(e, e);
    ==
      e.x * e.x + e.y * e.y;
    >= { assert e.x * e.x >= 0.0 && e.y * e.y >= 0.0; }
      0.0;
    }
    if e.x != 0.0 {
      calc {
        Dot(e, e);
      ==
        e.x * e.x + e.y * e.y;
      > { assert e.x * e.x > 0.0 && e.y * e.y >= 0.0; }
        0.0;
      }
    } else if e.y != 0.0 {
      calc {
        Dot(e, e);
      ==
        e.y * e.y + e.x * e.x;
      > { assert e.y * e.y > 0.0 && e.x * e.x >= 0.0; }
        0.0;
      }
    }
  }

  /** After an update the speed is that of the expected velocity. */
  lemma SnapMagnitude(v: Vec2, expected: Vec2)
    ensures Dot(Snap(v, expected), Snap(v, expected)) == Dot(expected, expected)
  {
    var e := expected;
    assert (-e.x) * (-e.x) == e.x * e.x && (-e.y) * (-e.y) == e.y * e.y;
  }

  /** A snapped velocity snaps to itself, so a second update changes nothing. */
  lemma SnapIdempotent(v: Vec2, expected: Vec2)
    ensures Snap(Snap(v, expected), expected) == Snap(v, expected)
  {
    var e := expected;
    SquaredLength(e);
    if Dot(v, e) < 0.0 {
      assert Dot(Neg(e), e) == -Dot(e, e);
    }
  }

  class Platform {
    var position: Vec2
    var rotation: real
    var velocity: Vec2
    const size: Vec2
    const expectedVelocity: Vec2

    /** `Platform::Platform`: unrotated, already moving at the expected velocity. */
    constructor (initialPosition: Vec2, size: Vec2, expectedVelocity: Vec2)
      ensures position == initialPosition && rotation == 0.0 && velocity == expectedVelocity
      ensures this.size == size && this.expectedVelocity == expectedVelocity
    {
      position := initialPosition;
      rotation := 0.0;
      velocity := expectedVelocity;
      this.size := size;
      this.expectedVelocity := expectedVelocity;
    }

    /**
     * `Platform::Update`: only the velocity changes, to `Snap` of the current
     * one; the frame time and the screen size are not used.
     */
    method Update(deltaTime: real, screenWidth: int, screenHeight: int)
      modifies this
      ensures velocity == Snap(old(velocity), expectedVelocity)
      ensures position == old(position) && rotation == old(rotation)
    {
      var dotProduct := velocity.x * expectedVelocity.x + velocity.y * expectedVelocity.y;
      if dotProduct >= 0.0 {
        velocity := expectedVelocity;
      } else {
        velocity := Vec2(-expectedVelocity.x, -expectedVelocity.y);
      }
    }
  }
}
