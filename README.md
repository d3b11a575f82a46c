# Kinect point-cloud mesh builder

A Dafny model of the mesh builder of `kinectTestApp`, a Cinder application
that shows a Kinect depth camera's image as a cloud of points. At start-up
`createVbo` builds a fixed vertex-buffer mesh: an X-by-Y lattice of points
(1280 by 1024 in the application). The points are drawn through a shader
that is not part of this model, with the depth and colour textures bound as
`depthTex` and `colorTex`. For every lattice cell the
builder appends three things, with x in the outer loop and y in the inner
loop:

- a flat point index `x * Y + y`;
- a normalised texture coordinate `(x / (X-1), y / (Y-1))`;
- a position `((2·xPer - 1)·X, (2·yPer - 1)·Y, 0)` in the plane z = 0.

The mesh is allocated for `X*Y` vertices and `(X-1)*(Y-1)` index slots. The
three sequences are then buffered into it.

The model has two modules:

- `Lattice` (`lattice.dfy`) holds the vector types and the normalised
  coordinate `Per(i, n) = i / (n - 1)`. It also holds the closed forms of the
  three buffers: `GridIndices`, `GridTexCoords` and `GridPositions` give slot
  `k` the values of cell `(k / Y, k % Y)`. Its lemmas prove the properties of
  the lattice: slots and cells correspond one to one, the indices are
  `0 … X*Y-1`, texture coordinates lie in the unit square, positions lie in
  `[-X, X] × [-Y, Y] × {0}`, the corners are exact, position and texture
  coordinate agree slot by slot, and the order is lexicographic in (u, v).
- `App` (`kinect_test_app.dfy`) holds the application side. `FillGrid` is
  the two nested loops of `createVbo`, appending to sequences. It is proved
  to produce exactly the closed forms. `VboMesh` is the mesh object, which
  records its allocated sizes and the sequences buffered into it.
  `KinectTestApp.CreateVbo` allocates the mesh, runs the loops and buffers
  the results.

The resolution is a parameter `(xRes, yRes)`. The compiled-in constants are
`App.VboXRes` and `App.VboYRes`. A resolution below 2 would make the
divisions at src/kinectTestApp.cpp:122-123 divide by zero. The code never
checks for this, because its resolution is a compile-time constant, so the
model makes `Lattice.ValidResolution` (`xRes >= 2 && yRes >= 2`) a
precondition. Coordinates are exact `real`s, where the application uses
single-precision `float`s.

## Model

| member | source | states |
|---|---|---|
| Lattice.GridIndices | src/kinectTestApp.cpp:113-120 | The index buffer has exactly X*Y entries, one per vertex. |
| Lattice.GridTexCoords | src/kinectTestApp.cpp:118-126 | The texture-coordinate buffer has exactly X*Y entries. |
| Lattice.GridPositions | src/kinectTestApp.cpp:118-125 | The position buffer has exactly X*Y entries. |
| Lattice.SlotOfCell | src/kinectTestApp.cpp:118-120 | With x outer and y inner, cell (x, y) is written at slot x*Y + y. That slot lies in [0, X*Y) and decodes back to column x and row y. |
| Lattice.CellOfSlot | src/kinectTestApp.cpp:118-120 | Every slot k < X*Y holds the cell (k / Y, k % Y), which lies in the lattice, and re-encoding that cell gives k back. |
| Lattice.CellWrittenAtSlot | src/kinectTestApp.cpp:118-126 | At slot x*Y + y the three buffers hold the index x*Y + y, the texture coordinate of (x, y) and the position of (x, y). |
| Lattice.IndicesEnumerateVertices | src/kinectTestApp.cpp:113-120 | The index at slot k is k. Every index is below the vertex count X*Y, and the indices strictly increase, so none repeats. |
| Lattice.PerZero | src/kinectTestApp.cpp:122-123 | The normalised coordinate of the first cell of an axis is 0. |
| Lattice.PerLast | src/kinectTestApp.cpp:122-123 | The normalised coordinate of the last cell of an axis is 1. |
| Lattice.PerBetween | src/kinectTestApp.cpp:122-123 | The normalised coordinate of every cell lies in [0, 1]. |
| Lattice.PerStrictlyIncreasing | src/kinectTestApp.cpp:122-123 | The normalised coordinate strictly increases with the cell number. |
| Lattice.TexCoordInUnitSquare | src/kinectTestApp.cpp:122-126 | Both components of every texture coordinate lie in [0, 1]. |
| Lattice.TexCoordCorners | src/kinectTestApp.cpp:118-126 | Slot 0 holds (0,0), slot Y-1 holds (0,1), slot (X-1)*Y holds (1,0) and the last slot X*Y-1 holds (1,1). |
| Lattice.TexCoordsLexicographic | src/kinectTestApp.cpp:118-126 | For slots i < j, u never decreases. It strictly increases when j is in a later column. In the same column u is equal and v strictly increases. |
| Lattice.ColumnRowsIncrease | src/kinectTestApp.cpp:119-126 | Two neighbouring slots in one column have the same u, and the later one has a strictly greater v. |
| Lattice.ColumnsIncrease | src/kinectTestApp.cpp:118-126 | A cell in a later column has a strictly greater u than one in an earlier column, whatever their rows, and it occupies a later slot. |
| Lattice.PositionMatchesTexCoord | src/kinectTestApp.cpp:122-126 | At every slot, with (u, v) the texture coordinate there, the position is ((2u-1)·X, (2v-1)·Y, 0): both buffers describe the same cell. |
| Lattice.PositionInBounds | src/kinectTestApp.cpp:122-125 | Every position has z = 0, x in [-X, X] and y in [-Y, Y]. |
| Lattice.PositionCorners | src/kinectTestApp.cpp:118-125 | The four corner cells are at (-X,-Y,0), (-X,Y,0), (X,-Y,0) and (X,Y,0). |
| Lattice.TwoByTwo | src/kinectTestApp.cpp:118-128 | For a 2-by-2 lattice the indices are 0,1,2,3, the texture coordinates are (0,0),(0,1),(1,0),(1,1) in that order, and the positions are (±2, ±2, 0) in the same order. |
| App.FillGrid | src/kinectTestApp.cpp:109-128 | The nested x-outer / y-inner loops that append an index, a position and a texture coordinate per cell produce exactly GridIndices, GridTexCoords and GridPositions. |
| App.VboMesh.constructor | src/kinectTestApp.cpp:103-116 | A new mesh records its vertex count, index count, layout and primitive, and holds no buffer data yet. |
| App.VboMesh.BufferPositions | src/kinectTestApp.cpp:130 | After buffering, the mesh holds exactly the given positions and nothing else changes. |
| App.VboMesh.BufferIndices | src/kinectTestApp.cpp:131 | After buffering, the mesh holds exactly the given indices and nothing else changes. |
| App.VboMesh.BufferTexCoords2d | src/kinectTestApp.cpp:132 | After buffering, the given texture unit holds exactly the given coordinates, other units keep theirs, and nothing else changes. |
| App.KinectTestApp.CreateVbo | src/kinectTestApp.cpp:101-133 | The application's mesh is newly allocated with static positions, texture coordinates and indices, drawn as points. It is allocated for X*Y vertices and (X-1)*(Y-1) index slots. It then holds GridPositions, GridIndices and GridTexCoords on unit 0, each of X*Y entries, which is more than the index slots allocated. |
| App.IndexSlotsShort | src/kinectTestApp.cpp:113-116 | The allocated index count (X-1)*(Y-1) is below the number of indices buffered, X*Y, by exactly X + Y - 1. |
| App.CompiledResolutionFitsInt32 | src/kinectTestApp.cpp:14-15 | The compiled-in 1280 × 1024 resolution is valid. It gives 1310720 vertices and 1308417 index slots, which fit a signed 32-bit int. |

## Left out

- Floating-point rounding: `xPer`, `yPer` and the positions are exact reals in the model. No claim is made about bit-exact `float` results, for example that `x / (X-1)` rounds to exactly 1.0 at the last column.
- Integer width: the model's counts and indices are unbounded integers. For the compiled-in resolution, `App.CompiledResolutionFitsInt32` shows that the C++ `int` and `uint32_t` values do not overflow. A general X, Y with X*Y of 2^31 or more would overflow in C++, and the model does not capture that.
- GPU upload: `VboMesh` records only the allocated sizes and the sequences last buffered. The graphics library's buffer objects, and what it does when more indices are buffered than were allocated, are not part of this model.
- The threshold blend with `lo`/`hi` (src/kinectTestApp.cpp:84-85, 242-243): it runs in a GLSL shader that is not part of this model. The C++ only passes the two values as uniforms.
- The depth-to-colour reprojection (src/kinectTestApp.cpp:153-215): this code is commented out, so it is not behaviour of the program. It is also floating-point camera math with compiled-in calibration constants.
- Frame polling and texture replacement (src/kinectTestApp.cpp:142-150), Kinect tilt sync (219-220) and capture start (97-98): these are thin calls into the Kinect and Cinder drivers.
- Camera set-up, `lookAt`, the matrix stack, draw calls, the parameter UI and window settings (src/kinectTestApp.cpp:56-76, 223-256): these are rendering and UI plumbing. So is the rest of `setup` around its one call to `createVbo` with the compiled-in resolution.
