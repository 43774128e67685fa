/** What the inclusive overlap test means for closed boxes given by centre and size. */
module CollisionFacts {
  import opened Geometry
  import opened Collision

  /** p lies in the closed box (faces included). */
  ghost predicate Contains(b: Box, p: Vector3) {
    && b.Min().x <= p.x <= b.Max().x
    && b.Min().y <= p.y <= b.Max().y
    && b.Min().z <= p.z <= b.Max().z
  }

  predicate NonNegative(v: Vector3) {
    0.0 <= v.x && 0.0 <= v.y && 0.0 <= v.z
  }

  function Larger(a: real, b: real): real {
    if a < b then b else a
  }

  /** The derived bounds sit half a size either side of the centre. */
  lemma DerivedBounds(b: Box)
    ensures b.Max().Minus(b.Min()) == b.size
    ensures b.Min().Plus(b.Extents()) == b.center && b.Max().Minus(b.Extents()) == b.center
  {
  }

  lemma ReachesSymmetric(a: Box, b: Box)
    ensures Reaches(a, b) <==> Reaches(b, a)
  {
  }

  /**
   * For boxes of non-negative size, overlapping is having a point in common; the
   * common point may lie on a face of both, so boxes that only touch overlap.
   */
  lemma ReachesIffSharedPoint(a: Box, b: Box)
    requires NonNegative(a.size) && NonNegative(b.size)
    ensures Reaches(a, b) <==> exists p :: Contains(a, p) && Contains(b, p)
  {
    if Reaches(a, b) {
      var p := Vector3(Larger(a.Min().x, b.Min().x), Larger(a.Min().y, b.Min().y), Larger(a.Min().z, b.Min().z));
      assert Contains(a, p) && Contains(b, p);
    }
  }

  /** Two boxes placed face to face along x, aligned on the other axes, overlap. */
  lemma FaceContactReaches(a: Box, b: Box)
    requires NonNegative(a.size) && NonNegative(b.size)
    requires a.Max().x == b.Min().x
    requires a.center.y == b.center.y && a.size.y == b.size.y
    requires a.center.z == b.center.z && a.size.z == b.size.z
    ensures Reaches(a, b)
  {
  }

  /** A gap on any one axis, however small, separates the boxes. */
  lemma GapSeparates(a: Box, b: Box)
    ensures a.Max().x < b.Min().x || a.Min().x > b.Max().x ==> !Reaches(a, b)
    ensures a.Max().y < b.Min().y || a.Min().y > b.Max().y ==> !Reaches(a, b)
    ensures a.Max().z < b.Min().z || a.Min().z > b.Max().z ==> !Reaches(a, b)
  {
  }

  /**
   * A zero-size box collapses to its centre and still overlaps every box that contains
   * that centre: sizing a collider to zero does not take it out of collisions.
   */
  lemma ZeroSizeBox(a: Box, b: Box)
    requires a.size == Zero
    ensures a.Min() == a.center && a.Max() == a.center
    ensures Reaches(a, b) <==> Contains(b, a.center)
  {
  }

  /** Even two zero-size boxes at the same centre overlap. */
  lemma ZeroSizeStillCollides(c: Vector3)
    ensures Reaches(Box(c, Zero), Box(c, Zero))
  {
  }
}
