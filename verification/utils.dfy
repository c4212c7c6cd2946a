/**
 The hit test of utils.py. pygame's `Rect.collidepoint` is a parameter: the
 containment predicate of the target rectangle.
 */
module Utils {
  import opened Physics

  /** Some point of the sequence is in the rectangle. */
  ghost predicate AnyInside(points: seq<Point>, collidepoint: Point -> bool) {
    exists k :: 0 <= k < |points| && collidepoint(points[k])
  }

  /** `detect_collision`: scans the points in order and stops at the first
      one inside the rectangle. */
  method DetectCollision(points: seq<Point>, collidepoint: Point -> bool) returns (hit: bool)
    ensures hit <==> AnyInside(points, collidepoint)
    ensures points == [] ==> !hit
  {
    var i := 0;
    while i < |points|
      invariant 0 <= i <= |points|
      invariant forall k :: 0 <= k < i ==> !collidepoint(points[k])
    {
      if collidepoint(points[i]) {
        return true;
      }
      i := i + 1;
    }
    return false;
  }

  /** More points never undo a hit. */
  lemma AnyInsideMonotone(points: seq<Point>, more: seq<Point>, collidepoint: Point -> bool)
    requires AnyInside(points, collidepoint)
    ensures AnyInside(points + more, collidepoint)
  {
    var k :| 0 <= k < |points| && collidepoint(points[k]);
    assert (points + more)[k] == points[k];
  }

  /** The order of the points does not matter: any rearrangement gives the
      same answer. */
  lemma AnyInsidePermutation(points: seq<Point>, other: seq<Point>, collidepoint: Point -> bool)
    requires multiset(points) == multiset(other)
    ensures AnyInside(points, collidepoint) <==> AnyInside(other, collidepoint)
  {
    if AnyInside(points, collidepoint) {
      var k :| 0 <= k < |points| && collidepoint(points[k]);
      assert points[k] in multiset(other);
      var k' :| 0 <= k' < |other| && other[k'] == points[k];
    }
    if AnyInside(other, collidepoint) {
      var k :| 0 <= k < |other| && collidepoint(other[k]);
      assert other[k] in multiset(points);
      var k' :| 0 <= k' < |points| && points[k'] == other[k];
    }
  }
}
