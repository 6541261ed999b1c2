# Procedural meshes of the city demo

This project models how the OpenGL city demo in `main.cpp` builds its
procedural triangle meshes, and proves properties of them in Dafny. Four
generators each fill three lists with nested loops:

- `Create_Building` builds an axis-aligned box. It has 8 corners and 12
  triangles, and every UV is (0, 0).
- `Create_Ground_Plane` builds a slanted height-field grid on the plane
  y = A·x + B·z + C.
- `Create_Sphere` builds a UV sphere of `stacks + 1` rings of `slices + 1`
  points.
- `Create_Cylinder` builds an open cylinder of `slices + 1` pairs of rim
  points, bottom then top.

The three lists are the vertex positions, the texture coordinates (UVs) and
the index triangles. Each generator then hands the vertices and triangles to
`Add_Tri_Mesh_Object`, which appends a fresh mesh object to the driver's
`mesh_object_array`. The generator stores the UVs in that object afterwards.

Module layout:

- `MeshCore` (mesh.dfy) holds the shared values and predicates:
  - vectors, index triangles and meshes;
  - directed edges, index range, triangles that repeat no index;
  - consistent orientation (`Oriented`) and closedness (`Closed`);
  - right-hand normals;
  - flipping the winding of a triangle list.
- `Grid` (grid.dfy) covers the row-major grid shared by the ground, the sphere
  and the cylinder:
  - row `iz` of `nx + 1` points starts at index `iz*(nx+1)`;
  - each cell is split into the triangles (i0, i1, i2) and (i1, i3, i2).

  The cylinder is the grid with one cell per row. The sphere and the cylinder
  use that grid with every triangle's winding reversed. Counts, index range,
  "no triangle repeats an index" and orientation are proved once, on the grid.
- `Building`, `Ground`, `Sphere` and `Cylinder` each have:
  - a function that defines the lists the generator must produce;
  - methods that fill them with the generator's own loops, proved equal to
    those functions by loop invariants;
  - lemmas about the functions.
- `Driver` has the classes:
  - `TriangleMesh` holds the three lists of one object.
  - `MyDriver` holds the registry `meshObjects`. Its methods
    `AddTriMeshObject` and `CreateBuilding` / `CreateGroundPlane` /
    `CreateSphere` / `CreateCylinder` state the new registry exactly. The
    four `Create*` methods also keep the invariant that every registered mesh
    is well formed; `AddTriMeshObject` does not check its arguments.

The single-precision `float` arithmetic is idealised as `real`. `sinf`,
`cosf`, `sin` and `cos` are function parameters `real -> real`. The facts
about trigonometric positions are proved under the hypotheses they need, for
example sin² + cos² = 1.

Winding, as the code builds it: every box triangle's right-hand normal points
into the box, so its faces wind clockwise seen from outside
(`Building.BoxNormalsInward`). The ground's triangles face up
(`Ground.GroundFacesUp`), and the sphere and cylinder reverse the ground's
triangulation.

Given sin 0 = 0, cos 0 = 1, sin π = 0 and cos π = -1, the sphere's first and
last rings each collapse to a pole, so the first
triangle of every quad of the first band and the second triangle of every
quad of the last band have zero area, although no triangle repeats an index
(`Sphere.SphereNorthPoleTriangles`, `Sphere.SphereSouthPoleTriangles`).

## Model

| member | source | states |
|---|---|---|
| Building.BoxVertices | main.cpp:57-66 | The vertex list has 8 corners: corners 0-3 lie on y = 0, corners 4-7 on y = height. |
| Building.BoxElements | main.cpp:69-85 | The triangle list has 12 triangles, every index is below 8, and no triangle repeats an index. |
| Building.BuildingUvs | main.cpp:87-90 | The texture-coordinate loop yields the box's UV list: eight entries, all (0, 0). |
| Building.BoxShape | main.cpp:57-90 | The box mesh has 8 vertices, 12 triangles and 8 UVs, all (0, 0). Every index is below 8, no triangle repeats a corner, and the mesh is well formed. |
| Building.BoxCornerAbove | main.cpp:57-66 | Bottom corners 0-3 lie on y = 0. Top corner k+4 lies on y = height with the same x and z as corner k. |
| Building.BoxCornerOffsets | main.cpp:57-66 | Every corner is at x = ±width/2 and z = ±depth/2. |
| Building.BoxEdgeOwnerAt | main.cpp:69-85 | A directed edge of a box triangle is walked by that triangle and no other. Its reverse is walked by another triangle of the box. |
| Building.BoxWatertight | main.cpp:69-85 | The box is closed: every directed edge's reverse is walked by some triangle. It is consistently oriented (no directed edge is walked twice) and no triangle repeats an index. |
| MeshCore.ReverseEdgeUnique | main.cpp:69-85 | In a closed, oriented list whose triangles repeat no index, the reverse of each directed edge is walked by exactly one triangle, other than the edge's own. `Building.BoxEdgesShared` applies it to the box. |
| Building.BoxEdgesShared | main.cpp:69-85 | The reverse of each directed edge of a box triangle is walked by exactly one other box triangle. |
| Building.BoxNormalInward | main.cpp:57-85 | For one box triangle, its right-hand normal dotted with its offset from the box's centre equals -(width·depth·height)/2. |
| Building.BoxNormalsInward | main.cpp:57-85 | The same holds for all twelve triangles, so for a box of positive size every face winds clockwise seen from outside. |
| Ground.GroundPoint | main.cpp:118-122 | The point the generator computes for grid point (iz, ix) lies on the plane y = A·x + B·z + C. |
| Ground.GroundUv | main.cpp:123 | The UV of a grid point lies in [0,1] × [0,5]. |
| Ground.GroundGridVertices | main.cpp:113-125 | The first loop nest yields exactly the ground's vertex list and UV list, row by row (loop invariant: the rows done plus the prefix of the current row). |
| Ground.GroundPush | main.cpp:120-123 | The x, y and z computed for grid point (iz, ix), and its UV, are the ground's point and UV there. Pushing them extends the lists by one grid point. |
| Ground.GroundGridElements | main.cpp:127-136 | The second loop nest yields exactly the grid triangulation: cells in row order, each cell as (i0, i1, i2) then (i1, i3, i2). |
| Ground.GroundMeshShape | main.cpp:117-136 | (nx+1)·(nz+1) vertices with as many UVs, and 2·nx·nz triangles. Indices are in range, no triangle repeats an index, and the triangulation is consistently oriented. |
| Ground.GroundVertexAt | main.cpp:117-125 | Grid point (iz, ix) is stored at index iz·(nx+1)+ix. Its position is the generator's, and its UV is (ix/nx, iz/nz·5). |
| Ground.GroundPointInside | main.cpp:113-123 | A grid point lies on y = A·x + B·z + C. It lies inside [-width/2, width/2] × [-length, 0] for non-negative sizes. Its UV lies in [0,1] × [0,5]. |
| Ground.GroundInsideRectangle | main.cpp:113-125 | Every ground vertex lies on the plane, and inside the rectangle for non-negative sizes. |
| Ground.GroundUvsInRange | main.cpp:123 | Every ground UV lies in [0,1] × [0,5]. |
| Ground.GroundFarCorner | main.cpp:113-123 | Grid point (nz, nx) lies at x = width/2, z = -length, with UV (1, 5). |
| Ground.GroundCorners | main.cpp:113-125 | The grid spans the rectangle. The first vertex is at (-width/2, 0) with UV (0, 0). The last vertex is at (width/2, -length) with UV (1, 5). |
| Ground.GroundCellFacesUp | main.cpp:129-134 | Both triangles of a cell have a right-hand normal whose Y component is (width/nx)·(length/nz). |
| Ground.GroundFacesUp | main.cpp:127-136 | Every ground triangle's normal has Y component (width/nx)·(length/nz), so for positive width and length the triangles wind counter-clockwise seen from above. |
| Grid.GridCellStep | main.cpp:129-134 | Pushing (i0, i1, i2) and (i1, i3, i2) for cell (iz, ix) extends the triangles of the cells before it by that cell, in row order. |
| Grid.CellTriIndices | main.cpp:129-134 | The two triangles of cell (iz, ix), as grid points, have indices (i0, i1, i2) and (i1, i3, i2), with i0 = iz·(nx+1)+ix, i1 = i0+1, i2 = i0+nx+1, i3 = i2+1. |
| Grid.PointRowsLength | main.cpp:117-125 | A list of m rows of nx+1 grid points has m·(nx+1) entries. |
| Grid.PointRowsAt | main.cpp:117-125 | Entry k of that list belongs to grid point (k div (nx+1), k mod (nx+1)), and that point lies in the grid. |
| Grid.PointRowsAtCorner | main.cpp:117-125 | Grid point (iz, ix) is stored at index iz·(nx+1)+ix. |
| Grid.GridTrisLength | main.cpp:127-136 | An nx × m grid has 2·nx·m triangles. |
| Grid.CellOfGridTri | main.cpp:127-136 | Each position p of the triangle list belongs to a cell (iz, ix) in range and to one of its two triangles. p counts the triangles of the rows before iz and of the cells before ix. |
| Grid.GridTriOfCell | main.cpp:127-136 | Conversely, each triangle of each cell is stored at that position. |
| Grid.GridTrisInRange | main.cpp:127-136 | Every index of an nx × nz grid's triangles is below (nx+1)·(nz+1). |
| Grid.GridTrisNonDegenerate | main.cpp:127-136 | With nx ≥ 1, no triangle repeats an index. |
| Grid.CellDiagonalOpposite | main.cpp:129-134 | The two triangles of a cell walk their shared diagonal i1–i2 in opposite directions: the first from i1 to i2, the second from i2 to i1. |
| Grid.GridTrisOriented | main.cpp:127-136 | No directed edge is walked by two triangles of the grid, so the triangulation is consistently oriented. |
| MeshCore.FlippedPreserves | main.cpp:176-177 | Reversing the winding of every triangle keeps the index range, the absence of repeated indices and consistent orientation. |
| Sphere.SpherePoint | main.cpp:152-161 | Given sin² + cos² = 1, the point the generator computes for ring i, column j lies at distance radius from the centre. |
| Sphere.SphereNorm | main.cpp:159-161 | radius·(sin φ cos θ, cos φ, sin φ sin θ) has squared length radius² when sin² + cos² = 1 holds for φ and for θ. |
| Sphere.SphereUv | main.cpp:152-164 | The UV of a sphere point lies in the unit square. |
| Sphere.SpherePush | main.cpp:156-164 | The u, v, x, y and z computed for ring i, column j are the sphere's point and UV there. Pushing them extends the lists by that point. |
| Sphere.SphereGridVertices | main.cpp:150-166 | The first loop nest yields exactly the sphere's vertex list and UV list, ring by ring. |
| Sphere.SphereCellStep | main.cpp:171-177 | Pushing (i0, i2, i1) and (i1, i2, i3) for quad (i, j) extends the list by the reversed triangles of grid cell (i, j). |
| Sphere.SphereGridElements | main.cpp:168-179 | The second loop nest yields exactly the grid triangulation with each triangle reversed: (i0, i2, i1) and (i1, i2, i3) per quad. |
| Sphere.SphereMeshShape | main.cpp:151-179 | (stacks+1)·(slices+1) vertices with as many UVs, and 2·slices·stacks triangles. Indices are in range, no triangle repeats an index, and the triangulation is consistently oriented. |
| Sphere.SphereVertexAt | main.cpp:151-165 | Ring i, column j is stored at index i·(slices+1)+j. Its position is the generator's, and its UV is (j/slices, i/stacks). |
| Sphere.SphereUvsInRange | main.cpp:152-164 | Every sphere UV lies in the unit square. |
| Sphere.SphereOnSurface | main.cpp:151-166 | Given sin² + cos² = 1, every vertex lies on the sphere of the given radius. |
| Sphere.SpherePoles | main.cpp:151-161 | Given the values of sin and cos at 0 and π, ring 0 collapses to (0, radius, 0) and ring stacks collapses to (0, -radius, 0). |
| Sphere.SphereNorthTriangle | main.cpp:168-177 | Triangle 2j, the first of quad (0, j), is (j, j+slices+1, j+1). |
| Sphere.SphereSouthTriangle | main.cpp:168-177 | The second triangle of quad (stacks-1, j) is (n+j-slices, n+j, n+j+1), with n = stacks·(slices+1). |
| Sphere.SpherePoleVertices | main.cpp:151-161 | Given the values of sin and cos at 0 and π, vertex j is the north pole and vertex stacks·(slices+1)+j the south pole. |
| Sphere.SphereNorthPoleTriangles | main.cpp:151-177 | The first triangle of each quad of the first band has its first and last corners both at the north pole, so it has zero area. |
| Sphere.SphereSouthPoleTriangles | main.cpp:151-177 | The second triangle of each quad of the last band has its last two corners both at the south pole, so it has zero area. |
| Sphere.SphereSeam | main.cpp:155-164 | Given that sin and cos repeat at 2π, the last point of a ring coincides with the first. Their UVs have u = 1 and u = 0. |
| Cylinder.CylinderPoint | main.cpp:207-217 | The point the generator computes for step i lies on the bottom or top rim. Given sin² + cos² = 1, it lies at distance radius from the axis. |
| Cylinder.CircleNorm | main.cpp:209-210 | (radius·cos a, radius·sin a) has squared length radius² when sin² a + cos² a = 1. |
| Cylinder.CylinderUv | main.cpp:207-218 | The UV of step i has u in [0, 1], and v = 0 at the bottom and v = 1 at the top. |
| Cylinder.CylinderPush | main.cpp:207-218 | The t, x and z computed for step i give the cylinder's bottom and top points and UVs there. Pushing them extends the lists by row i. |
| Cylinder.CylinderRimVertices | main.cpp:206-219 | The first loop yields exactly the cylinder's vertex list and UV list: a bottom and a top point per step. |
| Cylinder.CylinderSideElements | main.cpp:222-231 | The second loop yields exactly the one-column grid triangulation reversed: (i0, i2, i1) and (i1, i2, i3) with i0 = 2i. |
| Cylinder.CylinderSideStep | main.cpp:223-230 | Pushing (i0, i2, i1) and (i1, i2, i3) with i0 = 2i extends the list by the reversed triangles of row i of the one-column grid. |
| Cylinder.CylinderMeshShape | main.cpp:206-231 | 2·(slices+1) vertices with as many UVs, and 2·slices triangles. Indices are below 2·(slices+1), no triangle repeats an index, and the side is consistently oriented. |
| Cylinder.CylinderVertexPair | main.cpp:206-219 | Even index 2i is the bottom point: y = 0, UV (i/slices, 0). Odd index 2i+1 is the top point straight above it: y = height, UV (i/slices, 1). |
| Cylinder.CylinderBottomAt | main.cpp:212-214 | Index 2i holds the bottom point of step i, with UV (i/slices, 0). |
| Cylinder.CylinderTopAt | main.cpp:216-218 | Index 2i+1 holds the top point of step i, with UV (i/slices, 1). |
| Cylinder.CylinderOnSide | main.cpp:206-219 | Given sin² + cos² = 1, every vertex lies at distance radius from the axis, with y = 0 or y = height. |
| Cylinder.CylinderSeam | main.cpp:206-218 | Given that sin and cos repeat at 2π, the last pair of points coincides with the first. Their UVs have u = 1 and u = 0. |
| Driver.MyDriver.constructor | main.cpp:31 | A fresh driver has an empty registry, in which every registered mesh is trivially well formed. |
| Driver.TriangleMesh.constructor | main.cpp:411 | A fresh mesh object holds empty lists. |
| Driver.MyDriver.Registered | main.cpp:412 | The registered meshes are the meshes of the registry's objects, in order. |
| Driver.MyDriver.AddTriMeshObject | main.cpp:408-418 | Appends exactly one fresh object to the registry. The object holds the given vertices and triangles and no UVs. Earlier entries are unchanged. |
| Driver.MyDriver.CreateBuilding | main.cpp:51-104 | Registers one fresh object holding the box mesh, UVs included, and keeps every registered mesh well formed. |
| Driver.MyDriver.CreateGroundPlane | main.cpp:107-141 | Registers one fresh object holding the ground mesh, and keeps every registered mesh well formed. |
| Driver.MyDriver.CreateSphere | main.cpp:144-193 | Registers one fresh object holding the sphere mesh, and keeps every registered mesh well formed. |
| Driver.MyDriver.CreateCylinder | main.cpp:195-246 | Registers one fresh object holding the cylinder mesh, and keeps every registered mesh well formed. |

## Left out

- Shader, texture and light loading, and the scene assembly in `Initialize_Data` (main.cpp:250-391): framework calls with literal arguments.
- `Add_Obj_Mesh_Object` (main.cpp:394-405): reads a mesh from a file and prints to the console.
- `Toggle_Next_Frame` (main.cpp:421-467): the animation driven by the wall clock, and the uniform updates.
- Model matrices and material setters (`Set_Model_Matrix` and the like): the placement arguments `position`, `center` and `baseCenter` are accepted but not used by the model.
- `Add_Interactive_Object`'s own bookkeeping inside the viewer framework: the model only allocates the object and appends it to `mesh_object_array`.
- `Initialize`, `Run` and `main`: lifecycle plumbing.
- Sine and cosine are parameters, not the C library functions. The surface, pole and seam lemmas hold under stated hypotheses about them.
- Floating-point rounding: coordinates and UVs are exact reals. `M_PI` is a 21-digit decimal constant.
- 32-bit overflow of the index arithmetic for very large grids is not modelled; indices are unbounded integers.
- Driver.MyDriver.CreateGroundPlane: requires nx ≥ 1 and nz ≥ 1. The source divides by them and, with a zero count, would produce infinite or NaN coordinates; that path is not modelled. The source's default counts of 80 are not modelled either: the counts are plain parameters.
- Driver.MyDriver.CreateSphere: requires slices ≥ 1 and stacks ≥ 1, for the same reason (main.cpp:152, 156).
- Driver.MyDriver.CreateCylinder: requires slices ≥ 1, for the same reason (main.cpp:207).
- Sphere.SphereOnSurface: the outward or inward facing of the sphere's triangles is not stated. It depends on the trigonometric values; only the index-level reversal relative to the ground is proved.
