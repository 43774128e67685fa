/** The capsule generator: a sphere grid whose upper rows are lifted and lower rows lowered. */
module Capsule {
  import opened Geometry
  import opened GridMesh

  const Radius: real := 0.5
  const Height: real := 2.0
  const HalfHeight: real := Height * 0.5

  /**
   * Row y of the unit-sphere grid is lifted by halfHeight - radius when it lies above the
   * middle row segments / 2, lowered by the same amount below it, and left in place on it.
   * (Only rows 0 <= y <= segments are ever built, so segments is never negative here and
   * integer division agrees with the source's truncating one.)
   */
  function CapsulePoint(segments: int, y: int, vertex: Vector3): Vector3 {
    var hemisphereSegments := segments / 2;
    if y < hemisphereSegments then vertex.(y := vertex.y + (HalfHeight - Radius))
    else if y > hemisphereSegments then vertex.(y := vertex.y - (HalfHeight - Radius))
    else vertex
  }

  /** The vertex the loops store for grid point (y, x). */
  function Surface(segments: int, unitSphere: (int, int) -> Vector3): (int, int) -> Vector3 {
    (y, x) => CapsulePoint(segments, y, unitSphere(y, x))
  }

  /**
   * Exactly one row, the middle one, keeps its sphere height; the rows before it move up
   * and the rows after it move down, each by half the cylinder part's height.
   */
  lemma RowClassification(segments: int, y: int, v: Vector3)
    requires 0 <= segments && 0 <= y <= segments
    ensures 0 <= segments / 2 <= segments
    ensures CapsulePoint(segments, y, v) == v <==> y == segments / 2
    ensures y < segments / 2 <==> CapsulePoint(segments, y, v) == v.(y := v.y + 0.5)
    ensures y > segments / 2 <==> CapsulePoint(segments, y, v) == v.(y := v.y - 0.5)
  {
  }

  /**
   * GenerateMesh: rings = segments + 1 rows of segments + 1 points, so points =
   * (segments + 1)^2; the index buffer is the segments x segments grid of cells with the
   * sphere's neighbour offsets. Negative counts behave as for the sphere: nothing is
   * written, and only segments == -1 leaves indices outside the (empty) vertex buffer.
   */
  method GenerateMesh(segments: int, unitSphere: (int, int) -> Vector3) returns (mesh: Mesh)
    ensures |mesh.vertices| == (segments + 1) * (segments + 1)
    ensures |mesh.triangles| == segments * segments * 6
    ensures segments >= 0 ==> mesh.vertices == GridPoints(segments + 1, segments + 1, Surface(segments, unitSphere))
    ensures segments >= 0 ==> mesh.triangles == GridTriangles(segments, segments)
    ensures segments < 0 ==> (forall v | v in mesh.vertices :: v == Zero) && (forall t | t in mesh.triangles :: t == 0)
    ensures mesh.IndicesInRange() <==> segments != -1
  {
    var rings := segments + 1;
    var points := rings * (segments + 1);
    SquareNonNegative(segments + 1);
    SquareNonNegative(segments);

    var vertices := new Vector3[points](_ => Zero);
    var triangles := new int[segments * segments * 6](_ => 0);

    if segments >= 0 {
      var vert := FillGridPoints(vertices, rings, segments + 1, Surface(segments, unitSphere));
      var tri := FillGridTriangles(triangles, segments, segments);
      assert vert == points && tri == triangles.Length;
      GridTrianglesBounded(segments, segments);
    }
    mesh := Mesh(vertices[..], triangles[..]);
    if segments == -1 {
      assert mesh.triangles[0] == 0 && |mesh.vertices| == 0;
    }
  }
}
