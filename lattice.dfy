/** The point lattice that the Kinect point-cloud viewer streams its depth and
    colour textures onto: an X-by-Y grid of points, each with a position in the
    plane z = 0 and a normalised texture coordinate in the unit square.

    The functions here give the closed form of the three buffers the mesh
    builder fills (one entry per lattice cell, x-major order); the lemmas state
    what the closed form guarantees. Coordinates are exact reals: the
    application computes them in single-precision floating point. */
module Lattice {

  datatype Vec2 = Vec2(x: real, y: real)
  datatype Vec3 = Vec3(x: real, y: real, z: real)

  /** A lattice needs at least two cells along each axis, otherwise the
      normalisation by (n - 1) divides by zero. */
  predicate ValidResolution(xRes: int, yRes: int)
  {
    xRes >= 2 && yRes >= 2
  }

  /** Normalised coordinate of cell i on an axis of n cells: i / (n - 1). */
  function Per(i: int, n: int): real
    requires n >= 2
  {
    i as real / (n - 1) as real
  }

  /** Texture coordinate of cell (x, y). */
  function TexCoord(xRes: int, yRes: int, x: int, y: int): Vec2
    requires ValidResolution(xRes, yRes)
  {
    Vec2(Per(x, xRes), Per(y, yRes))
  }

  /** The point of the plane z = 0 that texture coordinate t stands for:
      each component mapped from [0, 1] to [-1, 1] and scaled by the
      resolution of its axis. */
  function PlanePoint(xRes: int, yRes: int, t: Vec2): Vec3
  {
    Vec3((t.x * 2.0 - 1.0) * xRes as real, (t.y * 2.0 - 1.0) * yRes as real, 0.0)
  }

  /** Position of cell (x, y). */
  function Position(xRes: int, yRes: int, x: int, y: int): Vec3
    requires ValidResolution(xRes, yRes)
  {
    PlanePoint(xRes, yRes, TexCoord(xRes, yRes, x, y))
  }

  /** Number of lattice cells, which is the number of vertices. */
  function CellCount(xRes: int, yRes: int): nat
    requires ValidResolution(xRes, yRes)
  {
    xRes * yRes
  }

  /** Buffer slot that cell (x, y) occupies when x is the outer loop. */
  function Slot(yRes: int, x: int, y: int): int
  {
    x * yRes + y
  }

  /** Column and row of the cell held in buffer slot k. */
  function Column(yRes: int, k: int): int
    requires yRes >= 1
  {
    k / yRes
  }

  function Row(yRes: int, k: int): int
    requires yRes >= 1
  {
    k % yRes
  }

  /** The index buffer: slot k holds the flat index of the cell stored there. */
  function GridIndices(xRes: int, yRes: int): (r: seq<nat>)
    requires ValidResolution(xRes, yRes)
    ensures |r| == CellCount(xRes, yRes)
  {
    seq(CellCount(xRes, yRes),
        k requires 0 <= k < CellCount(xRes, yRes) =>
          Slot(yRes, Column(yRes, k), Row(yRes, k)))
  }

  /** The texture-coordinate buffer. */
  function GridTexCoords(xRes: int, yRes: int): (r: seq<Vec2>)
    requires ValidResolution(xRes, yRes)
    ensures |r| == CellCount(xRes, yRes)
  {
    seq(CellCount(xRes, yRes),
        k requires 0 <= k < CellCount(xRes, yRes) =>
          TexCoord(xRes, yRes, Column(yRes, k), Row(yRes, k)))
  }

  /** The position buffer. */
  function GridPositions(xRes: int, yRes: int): (r: seq<Vec3>)
    requires ValidResolution(xRes, yRes)
    ensures |r| == CellCount(xRes, yRes)
  {
    seq(CellCount(xRes, yRes),
        k requires 0 <= k < CellCount(xRes, yRes) =>
          Position(xRes, yRes, Column(yRes, k), Row(yRes, k)))
  }

  // ---------------------------------------------------------------------------
  // Slots and cells

  /** Multiplying a bigger column number by the row count gives a bigger base
      slot, by at least one whole column. */
  lemma {:induction false} ColumnStep(yRes: int, a: int, b: int)
    requires yRes >= 1 && a < b
    ensures a * yRes + yRes <= b * yRes
  {
    assert b * yRes - a * yRes == (b - a) * yRes;
    assert (b - a) * yRes >= yRes by {
      assert b - a >= 1;
    }
  }

  /** Cell (x, y) is written at slot x * Y + y, and that slot decodes back to
      (x, y): slots and cells are in one-to-one correspondence. */
  lemma {:induction false} SlotOfCell(xRes: int, yRes: int, x: int, y: int)
    requires ValidResolution(xRes, yRes)
    requires 0 <= x < xRes && 0 <= y < yRes
    ensures 0 <= Slot(yRes, x, y) < CellCount(xRes, yRes)
    ensures Column(yRes, Slot(yRes, x, y)) == x
    ensures Row(yRes, Slot(yRes, x, y)) == y
  {
    var k := x * yRes + y;
    assert 0 <= x * yRes;
    ColumnStep(yRes, x, xRes);
    var q, r := k / yRes, k % yRes;
    assert k == q * yRes + r && 0 <= r < yRes;
    if q < x {
      ColumnStep(yRes, q, x);
    } else if q > x {
      ColumnStep(yRes, x, q);
    }
  }

  /** Every slot of the buffers holds a cell of the lattice, and re-encoding
      that cell gives the slot back. */
  lemma {:induction false} CellOfSlot(xRes: int, yRes: int, k: int)
    requires ValidResolution(xRes, yRes)
    requires 0 <= k < CellCount(xRes, yRes)
    ensures 0 <= Column(yRes, k) < xRes && 0 <= Row(yRes, k) < yRes
    ensures Slot(yRes, Column(yRes, k), Row(yRes, k)) == k
  {
    var q, r := k / yRes, k % yRes;
    assert k == q * yRes + r && 0 <= r < yRes;
    if q < 0 {
      ColumnStep(yRes, q, 0);
    }
    if q >= xRes {
      ColumnStep(yRes, xRes - 1, q);
      ColumnStep(yRes, xRes - 1, xRes);
    }
  }

  /** What the three buffers hold at the slot of cell (x, y). */
  lemma CellWrittenAtSlot(xRes: int, yRes: int, x: int, y: int)
    requires ValidResolution(xRes, yRes)
    requires 0 <= x < xRes && 0 <= y < yRes
    ensures 0 <= x * yRes + y < CellCount(xRes, yRes)
    ensures GridIndices(xRes, yRes)[x * yRes + y] == x * yRes + y
    ensures GridTexCoords(xRes, yRes)[x * yRes + y] == TexCoord(xRes, yRes, x, y)
    ensures GridPositions(xRes, yRes)[x * yRes + y] == Position(xRes, yRes, x, y)
  {
    SlotOfCell(xRes, yRes, x, y);
  }

  // ---------------------------------------------------------------------------
  // The index buffer

  /** The index buffer is 0, 1, ..., X*Y - 1 in order: every index names a
      vertex of the mesh and no index is repeated. */
  lemma IndicesEnumerateVertices(xRes: int, yRes: int)
    requires ValidResolution(xRes, yRes)
    ensures forall k :: 0 <= k < CellCount(xRes, yRes) ==> GridIndices(xRes, yRes)[k] == k
    ensures forall k :: 0 <= k < CellCount(xRes, yRes) ==> GridIndices(xRes, yRes)[k] < CellCount(xRes, yRes)
    ensures forall i, j :: 0 <= i < j < CellCount(xRes, yRes) ==>
      GridIndices(xRes, yRes)[i] < GridIndices(xRes, yRes)[j]
  {
    forall k | 0 <= k < CellCount(xRes, yRes)
      ensures GridIndices(xRes, yRes)[k] == k
    {
      CellOfSlot(xRes, yRes, k);
    }
  }

  // ---------------------------------------------------------------------------
  // Normalised coordinates

  /** i / (n - 1) is 0 at the first cell, 1 at the last, strictly increasing,
      and within [0, 1] for every cell of the axis. */
  lemma PerZero(n: int)
    requires n >= 2
    ensures Per(0, n) == 0.0
  {
  }

  lemma PerLast(n: int)
    requires n >= 2
    ensures Per(n - 1, n) == 1.0
  {
  }

  lemma PerBetween(i: int, n: int)
    requires n >= 2 && 0 <= i < n
    ensures 0.0 <= Per(i, n) <= 1.0
  {
    var d := (n - 1) as real;
    assert Per(i, n) * d == i as real;
  }

  lemma PerStrictlyIncreasing(i: int, j: int, n: int)
    requires n >= 2 && i < j
    ensures Per(i, n) < Per(j, n)
  {
    var d := (n - 1) as real;
    assert Per(i, n) * d == i as real;
    assert Per(j, n) * d == j as real;
  }

  // ---------------------------------------------------------------------------
  // The texture-coordinate buffer

  /** Every texture coordinate lies in the unit square. */
  lemma TexCoordInUnitSquare(xRes: int, yRes: int, k: int)
    requires ValidResolution(xRes, yRes)
    requires 0 <= k < CellCount(xRes, yRes)
    ensures 0.0 <= GridTexCoords(xRes, yRes)[k].x <= 1.0
    ensures 0.0 <= GridTexCoords(xRes, yRes)[k].y <= 1.0
  {
    CellOfSlot(xRes, yRes, k);
    PerBetween(Column(yRes, k), xRes);
    PerBetween(Row(yRes, k), yRes);
  }

  /** The four corner cells map to the four corners of the unit square: (0, 0)
      at the first slot and (1, 1) at the last. */
  lemma TexCoordCorners(xRes: int, yRes: int)
    requires ValidResolution(xRes, yRes)
    ensures GridTexCoords(xRes, yRes)[0] == Vec2(0.0, 0.0)
    ensures GridTexCoords(xRes, yRes)[yRes - 1] == Vec2(0.0, 1.0)
    ensures GridTexCoords(xRes, yRes)[(xRes - 1) * yRes] == Vec2(1.0, 0.0)
    ensures GridTexCoords(xRes, yRes)[CellCount(xRes, yRes) - 1] == Vec2(1.0, 1.0)
  {
    CellWrittenAtSlot(xRes, yRes, 0, 0);
    CellWrittenAtSlot(xRes, yRes, 0, yRes - 1);
    CellWrittenAtSlot(xRes, yRes, xRes - 1, 0);
    CellWrittenAtSlot(xRes, yRes, xRes - 1, yRes - 1);
    assert (xRes - 1) * yRes + yRes - 1 == CellCount(xRes, yRes) - 1;
    PerZero(xRes);
    PerZero(yRes);
    PerLast(xRes);
    PerLast(yRes);
  }

  /** The buffers run through the lattice column by column: from one slot to a
      later one either the column (u) strictly grows, or the column stays and
      the row (v) strictly grows. */
  lemma TexCoordsLexicographic(xRes: int, yRes: int, i: int, j: int)
    requires ValidResolution(xRes, yRes)
    requires 0 <= i < j < CellCount(xRes, yRes)
    ensures GridTexCoords(xRes, yRes)[i].x <= GridTexCoords(xRes, yRes)[j].x
    ensures Column(yRes, i) < Column(yRes, j) ==>
      GridTexCoords(xRes, yRes)[i].x < GridTexCoords(xRes, yRes)[j].x
    ensures Column(yRes, i) == Column(yRes, j) ==>
      GridTexCoords(xRes, yRes)[i].x == GridTexCoords(xRes, yRes)[j].x &&
      GridTexCoords(xRes, yRes)[i].y < GridTexCoords(xRes, yRes)[j].y
  {
    CellOfSlot(xRes, yRes, i);
    CellOfSlot(xRes, yRes, j);
    var xi, yi, xj, yj := Column(yRes, i), Row(yRes, i), Column(yRes, j), Row(yRes, j);
    if xj < xi {
      ColumnStep(yRes, xj, xi);
      assert false;
    } else if xi < xj {
      PerStrictlyIncreasing(xi, xj, xRes);
    } else {
      PerStrictlyIncreasing(yi, yj, yRes);
    }
  }

  /** Within one column, neighbouring slots have the same u and strictly
      increasing v. */
  lemma ColumnRowsIncrease(xRes: int, yRes: int, k: int)
    requires ValidResolution(xRes, yRes)
    requires 0 <= k && k + 1 < CellCount(xRes, yRes)
    requires Row(yRes, k) < yRes - 1
    ensures GridTexCoords(xRes, yRes)[k].x == GridTexCoords(xRes, yRes)[k + 1].x
    ensures GridTexCoords(xRes, yRes)[k].y < GridTexCoords(xRes, yRes)[k + 1].y
  {
    CellOfSlot(xRes, yRes, k);
    var x, y := Column(yRes, k), Row(yRes, k);
    CellWrittenAtSlot(xRes, yRes, x, y + 1);
    PerStrictlyIncreasing(y, y + 1, yRes);
  }

  /** Cells further along x have strictly greater u, whatever their rows. */
  lemma ColumnsIncrease(xRes: int, yRes: int, x1: int, y1: int, x2: int, y2: int)
    requires ValidResolution(xRes, yRes)
    requires 0 <= x1 < x2 < xRes && 0 <= y1 < yRes && 0 <= y2 < yRes
    ensures 0 <= Slot(yRes, x1, y1) < Slot(yRes, x2, y2) < CellCount(xRes, yRes)
    ensures GridTexCoords(xRes, yRes)[Slot(yRes, x1, y1)].x < GridTexCoords(xRes, yRes)[Slot(yRes, x2, y2)].x
  {
    var k1, k2 := Slot(yRes, x1, y1), Slot(yRes, x2, y2);
    CellWrittenAtSlot(xRes, yRes, x1, y1);
    CellWrittenAtSlot(xRes, yRes, x2, y2);
    ColumnStep(yRes, x1, x2);
    assert GridTexCoords(xRes, yRes)[k1].x == Per(x1, xRes);
    assert GridTexCoords(xRes, yRes)[k2].x == Per(x2, xRes);
    PerStrictlyIncreasing(x1, x2, xRes);
  }

  // ---------------------------------------------------------------------------
  // The position buffer

  /** The position at every slot is the texture coordinate at that slot mapped
      from [0, 1] to [-1, 1] and scaled by the resolution: both buffers
      describe the same cell. */
  lemma PositionMatchesTexCoord(xRes: int, yRes: int, k: int)
    requires ValidResolution(xRes, yRes)
    requires 0 <= k < CellCount(xRes, yRes)
    ensures GridPositions(xRes, yRes)[k] ==
      Vec3((2.0 * GridTexCoords(xRes, yRes)[k].x - 1.0) * xRes as real,
           (2.0 * GridTexCoords(xRes, yRes)[k].y - 1.0) * yRes as real,
           0.0)
  {
  }

  /** Every position lies in the plane z = 0, within [-X, X] by [-Y, Y]. */
  lemma PositionInBounds(xRes: int, yRes: int, k: int)
    requires ValidResolution(xRes, yRes)
    requires 0 <= k < CellCount(xRes, yRes)
    ensures GridPositions(xRes, yRes)[k].z == 0.0
    ensures -(xRes as real) <= GridPositions(xRes, yRes)[k].x <= xRes as real
    ensures -(yRes as real) <= GridPositions(xRes, yRes)[k].y <= yRes as real
  {
    CellOfSlot(xRes, yRes, k);
    var x, y := Column(yRes, k), Row(yRes, k);
    assert GridPositions(xRes, yRes)[k] == Position(xRes, yRes, x, y);
    PerBetween(x, xRes);
    PerBetween(y, yRes);
    ScaledInRange(Per(x, xRes), xRes as real);
    ScaledInRange(Per(y, yRes), yRes as real);
  }

  /** (2t - 1) * s lies in [-s, s] when t lies in [0, 1] and s is positive. */
  lemma ScaledInRange(t: real, s: real)
    requires 0.0 <= t <= 1.0 && s > 0.0
    ensures -s <= (2.0 * t - 1.0) * s <= s
  {
  }

  /** The corner cells hit the corners of the plane exactly. */
  lemma PositionCorners(xRes: int, yRes: int)
    requires ValidResolution(xRes, yRes)
    ensures GridPositions(xRes, yRes)[0] == Vec3(-(xRes as real), -(yRes as real), 0.0)
    ensures GridPositions(xRes, yRes)[yRes - 1] == Vec3(-(xRes as real), yRes as real, 0.0)
    ensures GridPositions(xRes, yRes)[(xRes - 1) * yRes] == Vec3(xRes as real, -(yRes as real), 0.0)
    ensures GridPositions(xRes, yRes)[CellCount(xRes, yRes) - 1] == Vec3(xRes as real, yRes as real, 0.0)
  {
    TexCoordCorners(xRes, yRes);
    assert 0 <= (xRes - 1) * yRes < CellCount(xRes, yRes);
    PositionMatchesTexCoord(xRes, yRes, 0);
    PositionMatchesTexCoord(xRes, yRes, yRes - 1);
    PositionMatchesTexCoord(xRes, yRes, (xRes - 1) * yRes);
    PositionMatchesTexCoord(xRes, yRes, CellCount(xRes, yRes) - 1);
  }

  // ---------------------------------------------------------------------------
  // The smallest lattice

  /** A 2-by-2 lattice: its texture coordinates are the corners of the unit
      square, (0,0), (0,1), (1,0), (1,1) in that order, and its positions the
      corners of the plane [-2, 2] by [-2, 2]. */
  lemma TwoByTwo()
    ensures GridIndices(2, 2) == [0, 1, 2, 3]
    ensures GridTexCoords(2, 2) ==
      [Vec2(0.0, 0.0), Vec2(0.0, 1.0), Vec2(1.0, 0.0), Vec2(1.0, 1.0)]
    ensures GridPositions(2, 2) ==
      [Vec3(-2.0, -2.0, 0.0), Vec3(-2.0, 2.0, 0.0), Vec3(2.0, -2.0, 0.0), Vec3(2.0, 2.0, 0.0)]
  {
    IndicesEnumerateVertices(2, 2);
    TexCoordCorners(2, 2);
    PositionCorners(2, 2);
  }
}
