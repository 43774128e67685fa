/**
 * The bulging cylinder generator: a side grid of rings + 1 rows, two cap centres, two cap
 * rims, and one index buffer made of the side cells followed by the two cap fans.
 */
module Cylinder {
  import opened Geometry
  import opened Wrappers
  import opened GridMesh

  const Rings: nat := 10
  const Height: real := 1.0
  const HalfHeight: real := Height * 0.5

  // ---- vertex layout ----

  function SideVertexCount(segments: nat): nat {
    (segments + 1) * (Rings + 1)
  }

  function BottomCenter(segments: nat): nat {
    SideVertexCount(segments)
  }

  function TopCenter(segments: nat): nat {
    SideVertexCount(segments) + 1
  }

  function BottomStart(segments: nat): nat {
    SideVertexCount(segments) + 2
  }

  function TopStart(segments: nat): nat {
    BottomStart(segments) + (segments + 1)
  }

  function VertexCount(segments: nat): nat {
    SideVertexCount(segments) + (segments + 1) * 2 + 2
  }

  /** The `count` rim points of a cap at height y; rim(i) is the (x, z) of rim point i. */
  function RimPoints(count: nat, y: real, rim: int -> (real, real)): seq<Vector3> {
    seq(count, i => Vector3(rim(i).0, y, rim(i).1))
  }

  /** Side grid, bottom centre, top centre, bottom rim, top rim: the whole vertex buffer. */
  function Vertices(segments: nat, side: (int, int) -> Vector3, rim: int -> (real, real)): seq<Vector3> {
    GridPoints(Rings + 1, segments + 1, side)
    + [Vector3(0.0, -HalfHeight, 0.0), Vector3(0.0, HalfHeight, 0.0)]
    + RimPoints(segments + 1, -HalfHeight, rim)
    + RimPoints(segments + 1, HalfHeight, rim)
  }

  // ---- cap fans ----

  /** The rim point after point i; the rim has segments + 1 points, so the index wraps. */
  function NextRim(i: nat, segments: nat): nat {
    (i + 1) % (segments + 1)
  }

  lemma NextRimNoWrap(i: nat, segments: nat)
    requires i < segments
    ensures NextRim(i, segments) == i + 1
  {
  }

  /** The first `count` bottom triangles: centre, next rim point, this rim point. */
  function BottomFan(count: nat, segments: nat, center: int, start: int): seq<int> {
    if count == 0 then []
    else BottomFan(count - 1, segments, center, start)
         + [center, start + NextRim(count - 1, segments), start + (count - 1)]
  }

  /** The first `count` top triangles: centre, this rim point, next rim point. */
  function TopFan(count: nat, segments: nat, center: int, start: int): seq<int> {
    if count == 0 then []
    else TopFan(count - 1, segments, center, start)
         + [center, start + (count - 1), start + NextRim(count - 1, segments)]
  }

  function CapTriangles(segments: nat): seq<int> {
    BottomFan(segments, segments, BottomCenter(segments), BottomStart(segments))
    + TopFan(segments, segments, TopCenter(segments), TopStart(segments))
  }

  /** Bottom fan triangle i is (centre, start + i + 1, start + i): the wrap-around never wraps. */
  lemma {:induction false} BottomFanAt(count: nat, segments: nat, center: int, start: int, i: nat)
    requires count <= segments && i < count
    ensures |BottomFan(count, segments, center, start)| == 3 * count
    ensures BottomFan(count, segments, center, start)[3 * i] == center
    ensures BottomFan(count, segments, center, start)[3 * i + 1] == start + i + 1
    ensures BottomFan(count, segments, center, start)[3 * i + 2] == start + i
  {
    var prev := BottomFan(count - 1, segments, center, start);
    assert BottomFan(count, segments, center, start) == prev + [center, start + NextRim(count - 1, segments), start + (count - 1)];
    FansLength(count - 1, segments, center, start, center, start);
    if i < count - 1 {
      BottomFanAt(count - 1, segments, center, start, i);
    } else {
      assert 3 * i == |prev|;
      NextRimNoWrap(i, segments);
    }
  }

  /** Top fan triangle i is (centre, start + i, start + i + 1): the opposite winding. */
  lemma {:induction false} TopFanAt(count: nat, segments: nat, center: int, start: int, i: nat)
    requires count <= segments && i < count
    ensures |TopFan(count, segments, center, start)| == 3 * count
    ensures TopFan(count, segments, center, start)[3 * i] == center
    ensures TopFan(count, segments, center, start)[3 * i + 1] == start + i
    ensures TopFan(count, segments, center, start)[3 * i + 2] == start + i + 1
  {
    var prev := TopFan(count - 1, segments, center, start);
    assert TopFan(count, segments, center, start) == prev + [center, start + (count - 1), start + NextRim(count - 1, segments)];
    FansLength(count - 1, segments, center, start, center, start);
    if i < count - 1 {
      TopFanAt(count - 1, segments, center, start, i);
    } else {
      assert 3 * i == |prev|;
      NextRimNoWrap(i, segments);
    }
  }

  lemma {:induction false} FansLength(count: nat, segments: nat, bc: int, bs: int, tc: int, ts: int)
    ensures |BottomFan(count, segments, bc, bs)| == 3 * count == |TopFan(count, segments, tc, ts)|
  {
    if count > 0 {
      FansLength(count - 1, segments, bc, bs, tc, ts);
    }
  }

  /** The bottom cap's triangles are the top cap's with the two rim corners swapped. */
  lemma CapWindingReversed(segments: nat, i: nat)
    requires i < segments
    ensures var b := BottomFan(segments, segments, BottomCenter(segments), BottomStart(segments));
            var t := TopFan(segments, segments, TopCenter(segments), TopStart(segments));
            && |b| == 3 * segments == |t|
            && b[3 * i + 1] - BottomStart(segments) == t[3 * i + 2] - TopStart(segments)
            && b[3 * i + 2] - BottomStart(segments) == t[3 * i + 1] - TopStart(segments)
  {
    BottomFanAt(segments, segments, BottomCenter(segments), BottomStart(segments), i);
    TopFanAt(segments, segments, TopCenter(segments), TopStart(segments), i);
  }

  /** Every bottom fan entry is the centre or one of the rim points start .. start + count. */
  lemma BottomFanEntry(count: nat, segments: nat, center: int, start: int, k: nat)
    requires count <= segments && k < 3 * count
    ensures |BottomFan(count, segments, center, start)| == 3 * count
    ensures var e := BottomFan(count, segments, center, start)[k];
      e == center || start <= e <= start + count
  {
    BottomFanAt(count, segments, center, start, k / 3);
  }

  /** Every top fan entry is the centre or one of the rim points start .. start + count. */
  lemma TopFanEntry(count: nat, segments: nat, center: int, start: int, k: nat)
    requires count <= segments && k < 3 * count
    ensures |TopFan(count, segments, center, start)| == 3 * count
    ensures var e := TopFan(count, segments, center, start)[k];
      e == center || start <= e <= start + count
  {
    TopFanAt(count, segments, center, start, k / 3);
  }

  /** Every cap index names a cap centre or a rim point, all inside the vertex buffer. */
  lemma CapTrianglesInRange(segments: nat)
    ensures |CapTriangles(segments)| == segments * 6
    ensures forall k | 0 <= k < |CapTriangles(segments)| ::
      SideVertexCount(segments) <= CapTriangles(segments)[k] < VertexCount(segments)
  {
    var bc, bs, tc, ts := BottomCenter(segments), BottomStart(segments), TopCenter(segments), TopStart(segments);
    FansLength(segments, segments, bc, bs, tc, ts);
    var b, t := BottomFan(segments, segments, bc, bs), TopFan(segments, segments, tc, ts);
    forall k | 0 <= k < |CapTriangles(segments)|
      ensures SideVertexCount(segments) <= CapTriangles(segments)[k] < VertexCount(segments)
    {
      if k < |b| {
        BottomFanEntry(segments, segments, bc, bs, k);
      } else {
        TopFanEntry(segments, segments, tc, ts, k - |b|);
      }
    }
  }

  /**
   * The vertex buffer's regions: the side grid fills [0, side), the bottom and top centres
   * take the next two slots, and the two rims of segments + 1 points each fill the rest,
   * exactly up to the buffer's length.
   */
  lemma VertexLayout(segments: nat, side: (int, int) -> Vector3, rim: int -> (real, real))
    ensures |Vertices(segments, side, rim)| == VertexCount(segments)
    ensures BottomStart(segments) + segments + 1 == TopStart(segments)
    ensures TopStart(segments) + segments + 1 == VertexCount(segments)
    ensures Vertices(segments, side, rim)[BottomCenter(segments)] == Vector3(0.0, -HalfHeight, 0.0)
    ensures Vertices(segments, side, rim)[TopCenter(segments)] == Vector3(0.0, HalfHeight, 0.0)
  {
    GridPointsLength(Rings + 1, segments + 1, side);
    var grid := GridPoints(Rings + 1, segments + 1, side);
    assert |grid| == SideVertexCount(segments);
  }

  /** Rim point i of each cap sits at its rim's start plus i. */
  lemma RimSlot(segments: nat, side: (int, int) -> Vector3, rim: int -> (real, real), i: nat)
    requires i <= segments
    ensures |Vertices(segments, side, rim)| == VertexCount(segments)
    ensures Vertices(segments, side, rim)[BottomStart(segments) + i] == Vector3(rim(i).0, -HalfHeight, rim(i).1)
    ensures Vertices(segments, side, rim)[TopStart(segments) + i] == Vector3(rim(i).0, HalfHeight, rim(i).1)
  {
    VertexLayout(segments, side, rim);
    var grid := GridPoints(Rings + 1, segments + 1, side);
    var centres := [Vector3(0.0, -HalfHeight, 0.0), Vector3(0.0, HalfHeight, 0.0)];
    var bottomRim := RimPoints(segments + 1, -HalfHeight, rim);
    var topRim := RimPoints(segments + 1, HalfHeight, rim);
    var lower := grid + centres + bottomRim;
    assert |lower| == TopStart(segments);
    assert Vertices(segments, side, rim) == lower + topRim;
    assert lower[BottomStart(segments) + i] == bottomRim[i];
  }

  /** Slot k below the side vertex count holds side grid point k. */
  lemma SideSlot(segments: nat, side: (int, int) -> Vector3, rim: int -> (real, real), k: nat)
    requires k < SideVertexCount(segments)
    ensures |Vertices(segments, side, rim)| == VertexCount(segments)
    ensures Vertices(segments, side, rim)[k] == GridPoints(Rings + 1, segments + 1, side)[k]
  {
    VertexLayout(segments, side, rim);
  }

  // ---- the generator ----

  /** The cap fans, bottom first, through the running counter ct. */
  method FillCapFans(capTris: array<int>, segments: nat, bottomCenter: int, bottomStart: int, topCenter: int, topStart: int)
    returns (ct: nat)
    requires capTris.Length == segments * 6
    modifies capTris
    ensures ct == capTris.Length
    ensures capTris[..] == BottomFan(segments, segments, bottomCenter, bottomStart) + TopFan(segments, segments, topCenter, topStart)
  {
    ct := FillBottomFan(capTris, segments, bottomCenter, bottomStart);
    ct := FillTopFan(capTris, ct, segments, topCenter, topStart);
    assert capTris[..] == capTris[..ct];
  }

  /** The bottom loop, in reverse winding: (centre, next rim point, this rim point). */
  method FillBottomFan(capTris: array<int>, segments: nat, center: int, start: int) returns (ct: nat)
    requires segments * 3 <= capTris.Length
    modifies capTris
    ensures ct == 3 * segments
    ensures capTris[..ct] == BottomFan(segments, segments, center, start)
  {
    ct := 0;
    var i := 0;
    while i < segments
      invariant 0 <= i <= segments && ct == 3 * i
      invariant capTris[..ct] == BottomFan(i, segments, center, start)
    {
      ct := EmitTriangle(capTris, ct, center, start + NextRim(i, segments), start + i);
      i := i + 1;
    }
  }

  /** The top loop: (centre, this rim point, next rim point), after what is already written. */
  method FillTopFan(capTris: array<int>, from: nat, segments: nat, center: int, start: int) returns (ct: nat)
    requires from + segments * 3 <= capTris.Length
    modifies capTris
    ensures ct == from + 3 * segments
    ensures capTris[..ct] == old(capTris[..from]) + TopFan(segments, segments, center, start)
  {
    ct := from;
    var i := 0;
    while i < segments
      invariant 0 <= i <= segments && ct == from + 3 * i
      invariant capTris[..ct] == old(capTris[..from]) + TopFan(i, segments, center, start)
    {
      ct := EmitTriangle(capTris, ct, center, start + i, start + NextRim(i, segments));
      i := i + 1;
    }
  }

  /** Three post-increment writes of one cap triangle. */
  method EmitTriangle(capTris: array<int>, ct: nat, a: int, b: int, c: int) returns (next: nat)
    requires ct + 3 <= capTris.Length
    modifies capTris
    ensures next == ct + 3
    ensures capTris[..next] == old(capTris[..ct]) + [a, b, c]
  {
    next := ct;
    capTris[next] := a; next := next + 1;
    capTris[next] := b; next := next + 1;
    capTris[next] := c; next := next + 1;
  }

  /** CopyTo followed by the two centres and the rim loop. */
  method AssembleVertices(sideVerts: array<Vector3>, segments: nat, rim: int -> (real, real))
    returns (vertices: array<Vector3>)
    requires sideVerts.Length == SideVertexCount(segments)
    ensures vertices[..] == sideVerts[..]
      + [Vector3(0.0, -HalfHeight, 0.0), Vector3(0.0, HalfHeight, 0.0)]
      + RimPoints(segments + 1, -HalfHeight, rim)
      + RimPoints(segments + 1, HalfHeight, rim)
  {
    vertices := new Vector3[sideVerts.Length + (segments + 1) * 2 + 2](_ => Zero);
    forall k | 0 <= k < sideVerts.Length {
      vertices[k] := sideVerts[k];
    }
    var vIndex := sideVerts.Length;
    var bottomCenter := vIndex;
    vIndex := vIndex + 1;
    var topCenter := vIndex;
    vIndex := vIndex + 1;
    vertices[bottomCenter] := Vector3(0.0, -HalfHeight, 0.0);
    vertices[topCenter] := Vector3(0.0, HalfHeight, 0.0);
    ghost var centres := [Vector3(0.0, -HalfHeight, 0.0), Vector3(0.0, HalfHeight, 0.0)];

    var bottomStart := sideVerts.Length + 2;
    var topStart := bottomStart + (segments + 1);
    assert vertices[..bottomStart] == sideVerts[..] + centres;
    PlaceRims(vertices, bottomStart, topStart, segments, rim);
    assert vertices[..] == vertices[..bottomStart] + vertices[bottomStart..topStart] + vertices[topStart..];
  }

  /** The rim loop: rim point i goes to bottomStart + i at the bottom and topStart + i at the top. */
  method PlaceRims(vertices: array<Vector3>, bottomStart: nat, topStart: nat, segments: nat, rim: int -> (real, real))
    requires topStart == bottomStart + (segments + 1) && topStart + (segments + 1) == vertices.Length
    modifies vertices
    ensures vertices[..bottomStart] == old(vertices[..bottomStart])
    ensures vertices[bottomStart..topStart] == RimPoints(segments + 1, -HalfHeight, rim)
    ensures vertices[topStart..] == RimPoints(segments + 1, HalfHeight, rim)
  {
    var i := 0;
    while i <= segments
      invariant 0 <= i <= segments + 1
      invariant vertices[..bottomStart] == old(vertices[..bottomStart])
      invariant forall j | 0 <= j < i ::
        && vertices[bottomStart + j] == Vector3(rim(j).0, -HalfHeight, rim(j).1)
        && vertices[topStart + j] == Vector3(rim(j).0, HalfHeight, rim(j).1)
    {
      var (x, z) := rim(i);
      vertices[bottomStart + i] := Vector3(x, -HalfHeight, z);
      vertices[topStart + i] := Vector3(x, HalfHeight, z);
      i := i + 1;
    }
  }

  /**
   * GenerateMesh. A negative segment count makes the side index buffer's length
   * segments * rings * 6 negative, and that allocation throws: no mesh. Otherwise the
   * vertex buffer is the side grid, the two cap centres and the two rims, and the index
   * buffer is the side cells followed by the cap fans, every index inside the vertex buffer.
   */
  method GenerateMesh(segments: int, side: (int, int) -> Vector3, rim: int -> (real, real))
    returns (result: Option<Mesh>)
    ensures result.None? <==> segments < 0
    ensures result.Some? ==> result.value.vertices == Vertices(segments, side, rim)
    ensures result.Some? ==> result.value.triangles == GridTriangles(Rings, segments) + CapTriangles(segments)
    ensures result.Some? ==> |result.value.vertices| == VertexCount(segments)
    ensures result.Some? ==> |result.value.triangles| == segments * Rings * 6 + segments * 6
    ensures result.Some? ==> result.value.IndicesInRange()
  {
    if segments < 0 {
      return None;
    }
    var rings := Rings;

    var sideVertexCount := (segments + 1) * (rings + 1);
    var sideVerts := new Vector3[sideVertexCount](_ => Zero);
    assert sideVerts.Length == (rings + 1) * (segments + 1) == SideVertexCount(segments);
    var written := FillGridPoints(sideVerts, rings + 1, segments + 1, side);

    var sideTriCount := segments * rings * 6;
    var sideTris := new int[sideTriCount](_ => 0);
    assert sideTris.Length == rings * segments * 6;
    var t := FillGridTriangles(sideTris, rings, segments);

    var vertices := AssembleVertices(sideVerts, segments, rim);

    var capTris := new int[segments * 6](_ => 0);
    var ct := FillCapFans(capTris, segments, BottomCenter(segments), BottomStart(segments), TopCenter(segments), TopStart(segments));

    var triangles := Concat(sideTris, capTris);

    assert vertices[..] == Vertices(segments, side, rim);
    assert triangles[..] == GridTriangles(Rings, segments) + CapTriangles(segments);
    result := Some(Mesh(vertices[..], triangles[..]));
    MeshFacts(segments, side, rim);
  }

  /** The two CopyTo calls that join the side and cap index buffers. */
  method Concat(first: array<int>, second: array<int>) returns (joined: array<int>)
    ensures joined[..] == first[..] + second[..]
  {
    joined := new int[first.Length + second.Length](_ => 0);
    forall k | 0 <= k < first.Length {
      joined[k] := first[k];
    }
    forall k | 0 <= k < second.Length {
      joined[first.Length + k] := second[k];
    }
  }

  /** The specified mesh has the source's buffer lengths and every index names a vertex. */
  lemma MeshFacts(segments: nat, side: (int, int) -> Vector3, rim: int -> (real, real))
    ensures |Vertices(segments, side, rim)| == VertexCount(segments)
    ensures |GridTriangles(Rings, segments) + CapTriangles(segments)| == segments * Rings * 6 + segments * 6
    ensures Mesh(Vertices(segments, side, rim), GridTriangles(Rings, segments) + CapTriangles(segments)).IndicesInRange()
  {
    VertexLayout(segments, side, rim);
    GridTrianglesLength(Rings, segments);
    GridTrianglesBounded(Rings, segments);
    CapTrianglesInRange(segments);
  }
}
