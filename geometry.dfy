/** Axis-aligned rectangles, points and the overlap test the maze uses for
    walls. A wall is written [x, y, width, height]; a player is a square
    hitbox whose top-left corner is its position. */
module Geometry {

  datatype Point = Point(x: int, y: int)

  /** A wall as the game writes it: left edge, top edge, width, height. */
  datatype Rect = Rect(x: int, y: int, width: int, height: int)

  function Sq(n: int): int { n * n }

  /** The square hitbox of side `size` at `p` overlaps `wall` once the wall is
      shrunk by `margin` on every side. Comparisons are strict, so a hitbox
      that only touches the shrunk wall's edge does not overlap it. */
  predicate Overlaps(p: Point, size: int, wall: Rect, margin: int)
  {
    && p.x + size > wall.x + margin
    && p.x < wall.x + wall.width - margin
    && p.y + size > wall.y + margin
    && p.y < wall.y + wall.height - margin
  }

  /** The scan over the walls in order that stops at the first wall the hitbox
      overlaps: it reports a hit exactly when some wall is overlapped. */
  function AnyOverlap(walls: seq<Rect>, p: Point, size: int, margin: int): (hit: bool)
    ensures hit <==> exists i :: 0 <= i < |walls| && Overlaps(p, size, walls[i], margin)
  {
    if walls == [] then false
    else if Overlaps(p, size, walls[0], margin) then true
    else
      var rest := AnyOverlap(walls[1..], p, size, margin);
      assert forall i :: 1 <= i < |walls| ==> walls[i] == walls[1..][i - 1];
      rest
  }

  /** Shrinking the walls more can only remove overlaps: whatever overlaps a
      wall shrunk by `wider` also overlaps it shrunk by `narrower`. */
  lemma {:induction false} AnyOverlapMonotone(walls: seq<Rect>, p: Point, size: int, narrower: int, wider: int)
    requires narrower <= wider
    requires AnyOverlap(walls, p, size, wider)
    ensures AnyOverlap(walls, p, size, narrower)
  {
    var i :| 0 <= i < |walls| && Overlaps(p, size, walls[i], wider);
    assert Overlaps(p, size, walls[i], narrower);
  }

  /** Strictly closer than `r` to `q`, measured by Euclidean distance and
      compared through squares, which is exact on integers. */
  predicate WithinDistance(p: Point, q: Point, r: int)
  {
    Sq(p.x - q.x) + Sq(p.y - q.y) < Sq(r)
  }

  /** For non-negative reals, one is below the other exactly when its
      square is: the difference of the squares is the difference of the
      numbers times their sum. */
  lemma SquareOrder(a: real, b: real)
    requires 0.0 <= a && 0.0 <= b
    ensures a < b <==> a * a < b * b
  {
    var sum := a + b;
    var diff := b - a;
    assert b * b - a * a == diff * sum;
  }

  /** Squaring an integer and then converting it to a real gives the same
      value as converting it first and then squaring. */
  lemma SqAsReal(n: int)
    ensures Sq(n) as real == (n as real) * (n as real)
  {
  }

  /** Comparing squared distances gives the same answer as comparing the
      Euclidean distance itself: for any non-negative real whose square is
      the squared distance, it is below `r` exactly when `WithinDistance`
      holds. */
  lemma DistanceBySquares(p: Point, q: Point, r: nat, distance: real)
    requires 0.0 <= distance
    requires distance * distance == (Sq(p.x - q.x) + Sq(p.y - q.y)) as real
    ensures distance < r as real <==> WithinDistance(p, q, r)
  {
    var squared := Sq(p.x - q.x) + Sq(p.y - q.y);
    var bound := r as real;
    SquareOrder(distance, bound);
    SqAsReal(r);
    assert distance * distance == squared as real;
    assert bound * bound == Sq(r) as real;
  }
}
