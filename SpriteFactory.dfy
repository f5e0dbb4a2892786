/**
 * `SpriteFactory::CreateSprites` (SpriteFactory.h): `quantity` scene nodes
 * of one kind, spread evenly along the diagonal of a rectangle.
 */
module SpriteFactory {
  import opened Geometry
  import opened Wrappers

  /** `ShapeType`, the collision shape a sprite declares. */
  datatype Shape = Circular | Rectangular

  /** The sprite a created node carries. */
  datatype Spawned =
    | PlayerSprite(position: Vec2, size: Vec2, shape: Shape)
    | WallSprite(position: Vec2, size: Vec2, shape: Shape)
    | BackgroundSprite

  /** The width and height of every created player and wall. */
  const SpawnExtent: real := 180.0

  /**
   * The sprite made for `spriteType` at `position`: a circular player, a
   * background or a rectangular wall; any other name gives the null node.
   */
  function Made(spriteType: string, position: Vec2): (e: Option<Spawned>)
    ensures e == None <==> spriteType != "Player" && spriteType != "Background" && spriteType != "Wall"
    ensures spriteType == "Player" ==> e == Some(PlayerSprite(position, Vec2(SpawnExtent, SpawnExtent), Circular))
    ensures spriteType == "Wall" ==> e == Some(WallSprite(position, Vec2(SpawnExtent, SpawnExtent), Rectangular))
    ensures spriteType == "Background" ==> e == Some(BackgroundSprite)
  {
    if spriteType == "Player" then Some(PlayerSprite(position, Vec2(SpawnExtent, SpawnExtent), Circular))
    else if spriteType == "Background" then Some(BackgroundSprite)
    else if spriteType == "Wall" then Some(WallSprite(position, Vec2(SpawnExtent, SpawnExtent), Rectangular))
    else None
  }

  /**
   * Where entry `i` of `quantity` goes: the `(i + 1)`-th of `quantity`
   * points that cut the rectangle's diagonal into `quantity + 1` equal steps.
   */
  function Slot(b: Rect, quantity: int, i: int): (p: Vec2)
    requires quantity + 1 != 0
  {
    Vec2(b.x + (i + 1) as real * Spacing(b.width, quantity), b.y + (i + 1) as real * Spacing(b.height, quantity))
  }

  /** `spacingX` and `spacingY`: the extent split into `quantity + 1` equal gaps. */
  function Spacing(extent: real, quantity: int): real
    requires quantity + 1 != 0
  {
    extent / (quantity + 1) as real
  }

  /** `k` of `n` equal steps of a positive extent fall short of the whole extent exactly when `k < n`. */
  lemma Steps(extent: real, n: int, k: int)
    requires extent > 0.0 && 0 < k < n
    ensures 0.0 < k as real * (extent / n as real) < extent
  {
    var step := extent / n as real;
    assert step * n as real == extent;
    assert step > 0.0;
    assert k as real * step < n as real * step;
  }

  /** Steps further along the diagonal are further along both axes. */
  lemma StepsIncrease(extent: real, n: int, j: int, k: int)
    requires extent > 0.0 && 0 < n && j < k
    ensures j as real * (extent / n as real) < k as real * (extent / n as real)
  {
    var step := extent / n as real;
    assert step * n as real == extent;
    assert step > 0.0;
  }

  /** With a rectangle of positive extent, every entry lies strictly inside it. */
  lemma SlotInside(b: Rect, quantity: int, i: int)
    requires b.width > 0.0 && b.height > 0.0 && 0 <= i < quantity
    ensures var p := Slot(b, quantity, i); b.x < p.x < Right(b) && b.y < p.y < Bottom(b)
  {
    Steps(b.width, quantity + 1, i + 1);
    Steps(b.height, quantity + 1, i + 1);
  }

  /** With a rectangle of positive extent, later entries lie strictly right of and below earlier ones. */
  lemma SlotIncreasing(b: Rect, quantity: int, i: int, j: int)
    requires b.width > 0.0 && b.height > 0.0 && 0 <= i < j < quantity
    ensures Slot(b, quantity, i).x < Slot(b, quantity, j).x && Slot(b, quantity, i).y < Slot(b, quantity, j).y
  {
    StepsIncrease(b.width, quantity + 1, i + 1, j + 1);
    StepsIncrease(b.height, quantity + 1, i + 1, j + 1);
  }

  /** The loop's position arithmetic, with the spacings computed up front, is `Slot`. */
  lemma SlotFrom(b: Rect, quantity: int, i: int, spacingX: real, spacingY: real)
    requires quantity + 1 != 0 && spacingX == Spacing(b.width, quantity) && spacingY == Spacing(b.height, quantity)
    ensures Vec2(b.x + (i + 1) as real * spacingX, b.y + (i + 1) as real * spacingY) == Slot(b, quantity, i)
  {
    var p := Slot(b, quantity, i);
    assert p.x == b.x + (i + 1) as real * Spacing(b.width, quantity);
    assert p.y == b.y + (i + 1) as real * Spacing(b.height, quantity);
  }

  /**
   * `CreateSprites`: one entry per step of the loop, so `quantity` of them,
   * or none when `quantity` is not positive; entry `i` is what `Made` gives
   * at `Slot` `i`.
   */
  method CreateSprites(spriteType: string, quantity: int, boundaries: Rect) returns (sprites: seq<Option<Spawned>>)
    ensures |sprites| == if quantity > 0 then quantity else 0
    ensures forall i :: 0 <= i < |sprites| ==> sprites[i] == Made(spriteType, Slot(boundaries, quantity, i))
  {
    // with `quantity == -1` the source divides by zero, but then the loop does not run
    var spacingX := if quantity + 1 != 0 then Spacing(boundaries.width, quantity) else 0.0;
    var spacingY := if quantity + 1 != 0 then Spacing(boundaries.height, quantity) else 0.0;
    sprites := [];
    var i := 0;
    while i < quantity
      invariant 0 <= i <= (if quantity > 0 then quantity else 0) && |sprites| == i
      invariant forall k :: 0 <= k < i ==> sprites[k] == Made(spriteType, Slot(boundaries, quantity, k))
    {
      var position := Vec2(boundaries.x + (i + 1) as real * spacingX, boundaries.y + (i + 1) as real * spacingY);
      SlotFrom(boundaries, quantity, i, spacingX, spacingY);
      sprites := sprites + [Made(spriteType, position)];
      i := i + 1;
    }
  }
}
