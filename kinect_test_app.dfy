/** The mesh-building part of the Kinect point-cloud viewer: the application
    object owns one vertex-buffer mesh, which createVbo allocates and fills
    once at start-up with an X-by-Y grid of points. */
module App {
  import opened Lattice

  /** Grid resolution compiled into the application. */
  const VboXRes: int := 1280
  const VboYRes: int := 1024

  /** Which attributes of the mesh are static (uploaded once). */
  datatype Layout = Layout(staticPositions: bool, staticTexCoords2d: bool, staticIndices: bool)

  /** How the mesh is drawn; the viewer draws its mesh as points only. */
  datatype Primitive = Points

  /** A vertex-buffer mesh as the application sees it: the sizes it was
      allocated with and the sequences last buffered into it. The upload to
      the graphics card is not modelled. */
  class VboMesh {
    const numVertices: int
    const numIndices: int
    const layout: Layout
    const primitive: Primitive
    var positions: seq<Vec3>
    var indices: seq<nat>
    var texCoords: map<nat, seq<Vec2>>  // per texture unit

    constructor (numVertices: int, numIndices: int, layout: Layout, primitive: Primitive)
      ensures this.numVertices == numVertices && this.numIndices == numIndices
      ensures this.layout == layout && this.primitive == primitive
      ensures positions == [] && indices == [] && texCoords == map[]
    {
      this.numVertices := numVertices;
      this.numIndices := numIndices;
      this.layout := layout;
      this.primitive := primitive;
      positions := [];
      indices := [];
      texCoords := map[];
    }

    method BufferPositions(ps: seq<Vec3>)
      modifies this`positions
      ensures positions == ps
    {
      positions := ps;
    }

    method BufferIndices(ixs: seq<nat>)
      modifies this`indices
      ensures indices == ixs
    {
      indices := ixs;
    }

    method BufferTexCoords2d(unit: nat, tcs: seq<Vec2>)
      modifies this`texCoords
      ensures texCoords == old(texCoords)[unit := tcs]
    {
      texCoords := texCoords[unit := tcs];
    }
  }

  /** The two nested loops of createVbo: x outer, y inner, one index, one
      position and one texture coordinate appended per cell. The buffers come
      out equal to the closed forms in Lattice, whose properties are proved
      there. */
  method FillGrid(xRes: int, yRes: int)
      returns (positions: seq<Vec3>, texCoords: seq<Vec2>, indices: seq<nat>)
    requires ValidResolution(xRes, yRes)
    ensures indices == GridIndices(xRes, yRes)
    ensures texCoords == GridTexCoords(xRes, yRes)
    ensures positions == GridPositions(xRes, yRes)
  {
    positions, texCoords, indices := [], [], [];
    ghost var n := 0;  // cells written so far
    var x := 0;
    while x < xRes
      invariant 0 <= x <= xRes && n == x * yRes && n <= CellCount(xRes, yRes)
      invariant indices == GridIndices(xRes, yRes)[..n]
      invariant texCoords == GridTexCoords(xRes, yRes)[..n]
      invariant positions == GridPositions(xRes, yRes)[..n]
    {
      ColumnStep(yRes, x, xRes);
      var y := 0;
      while y < yRes
        invariant 0 <= y <= yRes && n == x * yRes + y && n <= CellCount(xRes, yRes)
        invariant indices == GridIndices(xRes, yRes)[..n]
        invariant texCoords == GridTexCoords(xRes, yRes)[..n]
        invariant positions == GridPositions(xRes, yRes)[..n]
      {
        indices := indices + [x * yRes + y];
        var xPer := Per(x, xRes);
        var yPer := Per(y, yRes);
        positions := positions + [PlanePoint(xRes, yRes, Vec2(xPer, yPer))];
        texCoords := texCoords + [Vec2(xPer, yPer)];
        assert indices == GridIndices(xRes, yRes)[..n + 1] by {
          CellWrittenAtSlot(xRes, yRes, x, y);
          PrefixStep(GridIndices(xRes, yRes), n);
        }
        assert texCoords == GridTexCoords(xRes, yRes)[..n + 1] by {
          CellWrittenAtSlot(xRes, yRes, x, y);
          PrefixStep(GridTexCoords(xRes, yRes), n);
        }
        assert positions == GridPositions(xRes, yRes)[..n + 1] by {
          CellWrittenAtSlot(xRes, yRes, x, y);
          PrefixStep(GridPositions(xRes, yRes), n);
        }
        n := n + 1;
        y := y + 1;
      }
      assert n == (x + 1) * yRes;
      x := x + 1;
    }
    assert n == CellCount(xRes, yRes);
  }

  /** Extending a prefix of s by the next element of s gives the next prefix. */
  lemma PrefixStep<T>(s: seq<T>, n: nat)
    requires n < |s|
    ensures s[..n] + [s[n]] == s[..n + 1]
  {
  }

  /** The application object, reduced to the mesh it owns. */
  class KinectTestApp {
    var vboMesh: VboMesh?

    /** Allocates the mesh for X*Y vertices and (X-1)*(Y-1) index slots,
        fills the three buffers and hands them to the mesh. The allocated
        index count is smaller than the number of indices buffered. */
    method CreateVbo(xRes: int, yRes: int)
      requires ValidResolution(xRes, yRes)
      modifies this
      ensures vboMesh != null && fresh(vboMesh)
      ensures vboMesh.layout == Layout(true, true, true) && vboMesh.primitive == Points
      ensures vboMesh.numVertices == CellCount(xRes, yRes)
      ensures vboMesh.numIndices == (xRes - 1) * (yRes - 1)
      ensures vboMesh.positions == GridPositions(xRes, yRes)
      ensures vboMesh.indices == GridIndices(xRes, yRes)
      ensures vboMesh.texCoords == map[0 := GridTexCoords(xRes, yRes)]
      ensures |vboMesh.positions| == |vboMesh.indices| == |vboMesh.texCoords[0]| == vboMesh.numVertices
      ensures vboMesh.numIndices < |vboMesh.indices|
    {
      var layout := Layout(true, true, true);
      var numVertices := xRes * yRes;
      var numShapes := (xRes - 1) * (yRes - 1);
      var mesh := new VboMesh(numVertices, numShapes, layout, Points);
      vboMesh := mesh;
      var positions, texCoords, indices := FillGrid(xRes, yRes);
      mesh.BufferPositions(positions);
      mesh.BufferIndices(indices);
      mesh.BufferTexCoords2d(0, texCoords);
      IndexSlotsShort(xRes, yRes);
    }
  }

  /** (X-1)*(Y-1) < X*Y: the mesh is allocated with fewer index slots than
      the one index per vertex that is buffered into it. */
  lemma IndexSlotsShort(xRes: int, yRes: int)
    requires ValidResolution(xRes, yRes)
    ensures (xRes - 1) * (yRes - 1) < CellCount(xRes, yRes)
    ensures CellCount(xRes, yRes) - (xRes - 1) * (yRes - 1) == xRes + yRes - 1
  {
    assert (xRes - 1) * (yRes - 1) == xRes * yRes - xRes - yRes + 1;
  }

  /** With the compiled-in resolution, every count and every index fits a
      signed 32-bit int, so the C++ int and uint32_t arithmetic is exact. */
  lemma CompiledResolutionFitsInt32()
    ensures ValidResolution(VboXRes, VboYRes)
    ensures CellCount(VboXRes, VboYRes) == 1310720
    ensures (VboXRes - 1) * (VboYRes - 1) == 1308417
    ensures CellCount(VboXRes, VboYRes) < 0x8000_0000
  {
  }
}
