/**
 * raylib's `Vector2` and `Rectangle` over exact reals, and the one raylib
 * predicate the core relies on, `CheckCollisionRecs`.
 */
module Geometry {

  datatype Vec2 = Vec2(x: real, y: real)

  /** A rectangle given by its top-left corner and its extent (raylib's layout). */
  datatype Rect = Rect(x: real, y: real, width: real, height: real)

  function Add(a: Vec2, b: Vec2): Vec2 { Vec2(a.x + b.x, a.y + b.y) }

  function Scale(a: Vec2, k: real): Vec2 { Vec2(a.x * k, a.y * k) }

  function Neg(a: Vec2): Vec2 { Vec2(-a.x, -a.y) }

  function Dot(a: Vec2, b: Vec2): real { a.x * b.x + a.y * b.y }

  function Right(r: Rect): real { r.x + r.width }

  function Bottom(r: Rect): real { r.y + r.height }

  /**
   * raylib's `CheckCollisionRecs`, whose body is not part of this model: it is
   * taken to be the strict axis-aligned overlap test, so rectangles that only
   * share an edge do not collide.
   */
  predicate Overlaps(a: Rect, b: Rect)
  {
    a.x < Right(b) && b.x < Right(a) && a.y < Bottom(b) && b.y < Bottom(a)
  }

  /** A point of the closed rectangle `r`. */
  predicate Contains(r: Rect, p: Vec2)
  {
    r.x <= p.x <= Right(r) && r.y <= p.y <= Bottom(r)
  }

  /** The strict overlap test is symmetric. */
  lemma OverlapsSymmetric(a: Rect, b: Rect)
    ensures Overlaps(a, b) <==> Overlaps(b, a)
  {
  }

  /** A rectangle overlaps itself exactly when both of its extents are positive. */
  lemma OverlapsSelf(a: Rect)
    ensures Overlaps(a, a) <==> a.width > 0.0 && a.height > 0.0
  {
  }

  /**
   * A scene node as the quadtrees store it: a handle and the rectangle
   * `GetBounds` gives for it, taken to stay fixed while it is stored.
   */
  datatype Item = Item(node: nat, bounds: Rect)

  function MidX(b: Rect): real { b.x + b.width / 2.0 }

  function MidY(b: Rect): real { b.y + b.height / 2.0 }

  /**
   * The rectangle both quadtrees give child `i` when a node splits: half the
   * width and height, 0 top-left (north-west), 1 top-right (north-east),
   * 2 bottom-left (south-west), 3 bottom-right (south-east).
   */
  function Quadrant(b: Rect, i: int): Rect
    requires 0 <= i < 4
  {
    var w := b.width / 2.0;
    var h := b.height / 2.0;
    Rect(if i % 2 == 0 then b.x else b.x + w, if i < 2 then b.y else b.y + h, w, h)
  }

  /** The four quadrants of `b`, in child order. */
  function Quadrants(b: Rect): (qs: seq<Rect>)
    ensures |qs| == 4 && forall i :: 0 <= i < 4 ==> qs[i] == Quadrant(b, i)
  {
    seq(4, i requires 0 <= i < 4 => Quadrant(b, i))
  }

  /** The four quadrants tile their parent: a point lies in the parent iff it lies in one of them. */
  lemma QuadrantsTile(b: Rect, p: Vec2)
    requires b.width >= 0.0 && b.height >= 0.0
    ensures Contains(b, p) <==> exists i :: 0 <= i < 4 && Contains(Quadrant(b, i), p)
  {
    if Contains(b, p) {
      var i := (if p.x <= MidX(b) then 0 else 1) + (if p.y <= MidY(b) then 0 else 2);
      assert Contains(Quadrant(b, i), p);
    }
  }

  /** The interiors of two different quadrants do not overlap. */
  lemma QuadrantsDisjoint(b: Rect, i: int, j: int)
    requires 0 <= i < 4 && 0 <= j < 4 && i != j
    ensures !Overlaps(Quadrant(b, i), Quadrant(b, j))
  {
  }

  /** A rectangle of positive extent that overlaps `b` overlaps one of its quadrants. */
  lemma QuadrantsCover(b: Rect, r: Rect)
    requires Overlaps(b, r) && r.width > 0.0 && r.height > 0.0
    ensures Overlaps(Quadrant(b, 0), r) || Overlaps(Quadrant(b, 1), r) || Overlaps(Quadrant(b, 2), r) || Overlaps(Quadrant(b, 3), r)
  {
    var i := (if r.x < MidX(b) then 0 else 1) + (if r.y < MidY(b) then 0 else 2);
    assert Overlaps(Quadrant(b, i), r);
  }

  /**
   * Without positive extent that fails: a zero-width sliver on the vertical
   * midline overlaps the node but none of its quadrants.
   */
  lemma MidlineSliver(b: Rect)
    requires b.width > 0.0 && b.height > 0.0
    ensures var r := Rect(MidX(b), b.y, 0.0, b.height);
      Overlaps(b, r) && forall i :: 0 <= i < 4 ==> !Overlaps(Quadrant(b, i), r)
  {
  }
}
