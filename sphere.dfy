/** The UV sphere generator's vertex and index buffers (positions come from trigonometry and are a parameter). */
module Sphere {
  import opened Geometry
  import opened GridMesh

  /**
   * GenerateMesh: latitude and longitude both use `segments`. With segments >= 0 the
   * vertex buffer is the (segments + 1) x (segments + 1) grid of surface points in row
   * order and the index buffer is the segments x segments grid of cells. A negative count
   * allocates the same sizes (both are squares) but runs no loop, leaving zero vertices and
   * zero indices; only segments == -1 then leaves an index pointing outside the empty vertex
   * buffer.
   */
  method GenerateMesh(segments: int, surface: (int, int) -> Vector3) returns (mesh: Mesh)
    ensures |mesh.vertices| == (segments + 1) * (segments + 1)
    ensures |mesh.triangles| == segments * segments * 6
    ensures segments >= 0 ==> mesh.vertices == GridPoints(segments + 1, segments + 1, surface)
    ensures segments >= 0 ==> mesh.triangles == GridTriangles(segments, segments)
    ensures segments < 0 ==> (forall v | v in mesh.vertices :: v == Zero) && (forall t | t in mesh.triangles :: t == 0)
    ensures mesh.IndicesInRange() <==> segments != -1
  {
    var latitudeSegments := segments;
    var longitudeSegments := segments;
    SquareNonNegative(latitudeSegments + 1);
    SquareNonNegative(latitudeSegments);

    var vertices := new Vector3[(latitudeSegments + 1) * (longitudeSegments + 1)](_ => Zero);
    var triangles := new int[latitudeSegments * longitudeSegments * 6](_ => 0);

    if segments >= 0 {
      var vert := FillGridPoints(vertices, latitudeSegments + 1, longitudeSegments + 1, surface);
      var triIndex := FillGridTriangles(triangles, latitudeSegments, longitudeSegments);
      assert vert == vertices.Length && triIndex == triangles.Length;
      GridTrianglesBounded(latitudeSegments, longitudeSegments);
    }
    mesh := Mesh(vertices[..], triangles[..]);
    if segments == -1 {
      assert mesh.triangles[0] == 0 && |mesh.vertices| == 0;
    }
  }
}
