/**
 * The index arithmetic the sphere, capsule and cylinder generators share: a grid of
 * rows x cols vertices written row by row through a running counter, and a grid of
 * cells each emitting the two triangles (i0, i2, i1), (i1, i2, i3), where i1 is the
 * right neighbour of i0 and i2 the vertex one stride further on.
 */
module GridMesh {
  import opened Geometry

  /** A generated mesh: its vertex list and its flat triangle index list. */
  datatype Mesh = Mesh(vertices: seq<Vector3>, triangles: seq<int>) {

    /** Every triangle index names a vertex of this mesh. */
    predicate IndicesInRange() {
      forall k | 0 <= k < |triangles| :: 0 <= triangles[k] < |vertices|
    }
  }

  /** The two triangles of the cell whose lower-left vertex is i0. */
  function CellTriangles(i0: int, stride: int): seq<int> {
    var i1 := i0 + 1;
    var i2 := i0 + stride;
    var i3 := i2 + 1;
    [i0, i2, i1, i1, i2, i3]
  }

  /** The first `count` cells of the row whose first vertex is `first`, in order. */
  function RowTriangles(first: int, count: nat, stride: int): seq<int> {
    if count == 0 then []
    else RowTriangles(first, count - 1, stride) + CellTriangles(first + count - 1, stride)
  }

  /** The cells of the first `rows` rows of a grid `cols` cells wide, whose vertex rows are cols + 1 long. */
  function GridTriangles(rows: nat, cols: nat): seq<int> {
    if rows == 0 then []
    else GridTriangles(rows - 1, cols) + RowTriangles((rows - 1) * (cols + 1), cols, cols + 1)
  }

  /** The first `count` vertices of row y. */
  function RowPoints(y: int, count: nat, at: (int, int) -> Vector3): seq<Vector3> {
    if count == 0 then []
    else RowPoints(y, count - 1, at) + [at(y, count - 1)]
  }

  /** The vertices of the first `rows` rows, `cols` per row. */
  function GridPoints(rows: nat, cols: nat, at: (int, int) -> Vector3): seq<Vector3> {
    if rows == 0 then []
    else GridPoints(rows - 1, cols, at) + RowPoints(rows - 1, cols, at)
  }

  // ---- arithmetic helpers ----

  /** Array sizes of the form n * n are never negative. */
  lemma SquareNonNegative(n: int)
    ensures n * n >= 0
    ensures n != 0 ==> n * n > 0
  {
    if n < 0 {
      assert n * n == (-n) * (-n);
    }
  }

  lemma MulStep(a: int, c: int)
    ensures (a + 1) * c == a * c + c
  {
  }

  /** Slot y * cols + x of a grid with x < cols lies before the start of row y + 1. */
  lemma SlotBelowNextRow(y: nat, x: nat, rows: nat, cols: nat)
    requires y < rows && x < cols
    ensures y * cols + x < rows * cols
  {
    MulStep(y, cols);
    MulMonotone(y + 1, rows, cols);
  }

  lemma MulMonotone(a: nat, b: nat, c: nat)
    requires a <= b
    ensures a * c <= b * c
  {
    var d := b - a;
    assert b * c == a * c + d * c;
  }

  // ---- lengths and positions ----

  lemma {:induction false} RowPointsLength(y: int, count: nat, at: (int, int) -> Vector3)
    ensures |RowPoints(y, count, at)| == count
  {
    if count > 0 {
      RowPointsLength(y, count - 1, at);
    }
  }

  lemma {:induction false} GridPointsLength(rows: nat, cols: nat, at: (int, int) -> Vector3)
    ensures |GridPoints(rows, cols, at)| == rows * cols
  {
    if rows > 0 {
      GridPointsLength(rows - 1, cols, at);
      RowPointsLength(rows - 1, cols, at);
      MulStep(rows - 1, cols);
    }
  }

  lemma {:induction false} RowPointsAt(y: int, count: nat, at: (int, int) -> Vector3, x: nat)
    requires x < count
    ensures |RowPoints(y, count, at)| == count && RowPoints(y, count, at)[x] == at(y, x)
  {
    RowPointsLength(y, count, at);
    if x < count - 1 {
      RowPointsAt(y, count - 1, at, x);
    } else {
      RowPointsLength(y, count - 1, at);
    }
  }

  /** Slot y * cols + x holds the vertex of grid point (y, x): every slot is written once, in row order. */
  lemma {:induction false} GridPointsAt(rows: nat, cols: nat, at: (int, int) -> Vector3, y: nat, x: nat)
    requires y < rows && x < cols
    ensures |GridPoints(rows, cols, at)| == rows * cols
    ensures y * cols + x < rows * cols
    ensures GridPoints(rows, cols, at)[y * cols + x] == at(y, x)
  {
    GridPointsLength(rows, cols, at);
    SlotBelowNextRow(y, x, rows, cols);
    GridPointsLength(rows - 1, cols, at);
    if y < rows - 1 {
      SlotBelowNextRow(y, x, rows - 1, cols);
      GridPointsAt(rows - 1, cols, at, y, x);
    } else {
      RowPointsAt(y, cols, at, x);
    }
  }

  lemma {:induction false} RowTrianglesLength(first: int, count: nat, stride: int)
    ensures |RowTriangles(first, count, stride)| == 6 * count
  {
    if count > 0 {
      RowTrianglesLength(first, count - 1, stride);
    }
  }

  /** The triangle list holds six indices per cell. */
  lemma {:induction false} GridTrianglesLength(rows: nat, cols: nat)
    ensures |GridTriangles(rows, cols)| == rows * cols * 6
  {
    if rows > 0 {
      GridTrianglesLength(rows - 1, cols);
      RowTrianglesLength((rows - 1) * (cols + 1), cols, cols + 1);
      MulStep(rows - 1, cols);
    }
  }

  lemma {:induction false} RowTrianglesAt(first: int, count: nat, stride: int, x: nat, j: nat)
    requires x < count && j < 6
    ensures |RowTriangles(first, count, stride)| == 6 * count
    ensures RowTriangles(first, count, stride)[6 * x + j] == CellTriangles(first + x, stride)[j]
  {
    RowTrianglesLength(first, count, stride);
    RowTrianglesLength(first, count - 1, stride);
    if x < count - 1 {
      RowTrianglesAt(first, count - 1, stride, x, j);
    }
  }

  /** Cell (y, x) owns entries 6 * (y * cols + x) .. + 5, which are (i0, i2, i1, i1, i2, i3). */
  lemma GridTrianglesAt(rows: nat, cols: nat, y: nat, x: nat, j: nat)
    requires y < rows && x < cols && j < 6
    ensures |GridTriangles(rows, cols)| == rows * cols * 6
    ensures 6 * (y * cols + x) + j < rows * cols * 6
    ensures GridTriangles(rows, cols)[6 * (y * cols + x) + j] == CellTriangles(y * (cols + 1) + x, cols + 1)[j]
  {
    GridTrianglesLength(rows, cols);
    GridTrianglesLength(y, cols);
    SlotBelowNextRow(y, x, rows, cols);
    CellEntry(rows, cols, y, x, j);
  }

  /** Entry j of cell (y, x) sits 6 * x + j past the cells of the rows above row y. */
  lemma CellEntry(rows: nat, cols: nat, y: nat, x: nat, j: nat)
    requires y < rows && x < cols && j < 6
    ensures |GridTriangles(y, cols)| + (6 * x + j) < |GridTriangles(rows, cols)|
    ensures GridTriangles(rows, cols)[|GridTriangles(y, cols)| + (6 * x + j)]
      == CellTriangles(y * (cols + 1) + x, cols + 1)[j]
  {
    LastRowAt(y, cols, x, j);
    EarlierRowsKept(y + 1, rows, cols, |GridTriangles(y, cols)| + (6 * x + j));
  }

  /** Adding a row leaves the entries of the rows before it where they were. */
  lemma EarlierRowAt(rows: nat, cols: nat, k: nat)
    requires k < |GridTriangles(rows, cols)|
    ensures k < |GridTriangles(rows + 1, cols)|
    ensures GridTriangles(rows + 1, cols)[k] == GridTriangles(rows, cols)[k]
  {
    var prev := GridTriangles(rows, cols);
    var row := RowTriangles(rows * (cols + 1), cols, cols + 1);
    assert GridTriangles(rows + 1, cols) == prev + row;
    assert (prev + row)[k] == prev[k];
  }

  /** The triangle list of the first r rows is a prefix of the list of any more rows. */
  lemma {:induction false} EarlierRowsKept(r: nat, rows: nat, cols: nat, k: nat)
    requires r <= rows && k < |GridTriangles(r, cols)|
    ensures k < |GridTriangles(rows, cols)|
    ensures GridTriangles(rows, cols)[k] == GridTriangles(r, cols)[k]
    decreases rows - r
  {
    if r < rows {
      EarlierRowAt(r, cols, k);
      EarlierRowsKept(r + 1, rows, cols, k);
    }
  }

  /** The cells of the last row follow the rows before it. */
  lemma LastRowAt(y: nat, cols: nat, x: nat, j: nat)
    requires x < cols && j < 6
    ensures |GridTriangles(y + 1, cols)| == |GridTriangles(y, cols)| + 6 * cols
    ensures GridTriangles(y + 1, cols)[|GridTriangles(y, cols)| + (6 * x + j)]
      == CellTriangles(y * (cols + 1) + x, cols + 1)[j]
  {
    var prev := GridTriangles(y, cols);
    var row := RowTriangles(y * (cols + 1), cols, cols + 1);
    RowTrianglesAt(y * (cols + 1), cols, cols + 1, x, j);
    assert GridTriangles(y + 1, cols) == prev + row;
    assert (prev + row)[|prev| + (6 * x + j)] == row[6 * x + j];
  }

  lemma {:induction false} RowTrianglesBounded(first: int, count: nat, stride: nat)
    ensures forall k | 0 <= k < |RowTriangles(first, count, stride)| ::
      first <= RowTriangles(first, count, stride)[k] <= first + count + stride
  {
    if count > 0 {
      RowTrianglesBounded(first, count - 1, stride);
    }
  }

  /** Every index of the triangle list names one of the (rows + 1) * (cols + 1) grid vertices. */
  lemma {:induction false} GridTrianglesBounded(rows: nat, cols: nat)
    ensures forall k | 0 <= k < |GridTriangles(rows, cols)| ::
      0 <= GridTriangles(rows, cols)[k] < (rows + 1) * (cols + 1)
  {
    if rows > 0 {
      GridTrianglesBounded(rows - 1, cols);
      RowTrianglesBounded((rows - 1) * (cols + 1), cols, cols + 1);
      MulStep(rows - 1, cols + 1);
      MulStep(rows, cols + 1);
      MulMonotone(rows, rows + 1, cols + 1);
    }
  }

  // ---- the fill loops ----

  /**
   * The vertex loops: for each row y, for each column x, write the vertex at the running
   * counter and advance it. The counter always equals y * cols + x, the slot the cylinder
   * addresses directly, and it ends at exactly the array's length.
   */
  method FillGridPoints(vertices: array<Vector3>, rows: nat, cols: nat, at: (int, int) -> Vector3)
    returns (vert: nat)
    requires vertices.Length == rows * cols
    modifies vertices
    ensures vert == vertices.Length
    ensures vertices[..] == GridPoints(rows, cols, at)
  {
    vert := 0;
    var y := 0;
    while y < rows
      invariant 0 <= y <= rows
      invariant vert == |GridPoints(y, cols, at)| == y * cols <= vertices.Length
      invariant vertices[..vert] == GridPoints(y, cols, at)
    {
      MulStep(y, cols);
      MulMonotone(y + 1, rows, cols);
      vert := FillRow(vertices, vert, y, cols, at);
      GridPointsLength(y + 1, cols, at);
      y := y + 1;
    }
    assert vertices[..] == vertices[..vert];
  }

  /** The inner vertex loop: row y's points go to the next cols slots. */
  method FillRow(vertices: array<Vector3>, start: nat, y: nat, cols: nat, at: (int, int) -> Vector3)
    returns (vert: nat)
    requires start + cols <= vertices.Length
    modifies vertices
    ensures vert == start + cols
    ensures vertices[..vert] == old(vertices[..start]) + RowPoints(y, cols, at)
  {
    vert := start;
    var x := 0;
    while x < cols
      invariant 0 <= x <= cols && vert == start + x
      invariant vertices[..vert] == old(vertices[..start]) + RowPoints(y, x, at)
    {
      ghost var before := vertices[..vert];
      vertices[vert] := at(y, x);
      vert := vert + 1;
      assert vertices[..vert] == before + [at(y, x)];
      x := x + 1;
    }
  }

  /**
   * The triangle loops: for each cell (y, x), write i0, i2, i1, i1, i2, i3 at the running
   * counter. The counter ends at exactly the array's length.
   */
  method FillGridTriangles(triangles: array<int>, rows: nat, cols: nat) returns (tri: nat)
    requires triangles.Length == rows * cols * 6
    modifies triangles
    ensures tri == triangles.Length
    ensures triangles[..] == GridTriangles(rows, cols)
  {
    tri := 0;
    var y := 0;
    while y < rows
      invariant 0 <= y <= rows
      invariant tri == |GridTriangles(y, cols)| == y * cols * 6 <= triangles.Length
      invariant triangles[..tri] == GridTriangles(y, cols)
    {
      MulStep(y, cols);
      MulMonotone(y + 1, rows, cols);
      tri := FillRowCells(triangles, tri, y, cols);
      GridTrianglesLength(y + 1, cols);
      y := y + 1;
    }
    assert triangles[..] == triangles[..tri];
  }

  /** The inner cell loop: row y's cells go to the next cols * 6 slots. */
  method FillRowCells(triangles: array<int>, start: nat, y: nat, cols: nat) returns (tri: nat)
    requires start + cols * 6 <= triangles.Length
    modifies triangles
    ensures tri == start + cols * 6
    ensures triangles[..tri] == old(triangles[..start]) + RowTriangles(y * (cols + 1), cols, cols + 1)
  {
    tri := start;
    var x := 0;
    while x < cols
      invariant 0 <= x <= cols && tri == start + x * 6
      invariant triangles[..tri] == old(triangles[..start]) + RowTriangles(y * (cols + 1), x, cols + 1)
    {
      var i0 := y * (cols + 1) + x;
      var i1 := i0 + 1;
      var i2 := i0 + (cols + 1);
      var i3 := i2 + 1;

      tri := EmitCell(triangles, tri, i0, i1, i2, i3);
      x := x + 1;
    }
  }

  /** The six writes of one cell, each followed by a counter increment. */
  method EmitCell(triangles: array<int>, tri: nat, i0: int, i1: int, i2: int, i3: int) returns (next: nat)
    requires tri + 6 <= triangles.Length
    modifies triangles
    ensures next == tri + 6
    ensures triangles[..next] == old(triangles[..tri]) + [i0, i2, i1, i1, i2, i3]
  {
    next := tri;
    triangles[next] := i0; next := next + 1;
    triangles[next] := i2; next := next + 1;
    triangles[next] := i1; next := next + 1;
    triangles[next] := i1; next := next + 1;
    triangles[next] := i2; next := next + 1;
    triangles[next] := i3; next := next + 1;
  }
}
