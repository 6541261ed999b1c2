/** The slanted heightfield ground: a grid of (nx+1) x (nz+1) points over a
  * width x length rectangle centred in X and running from z = 0 towards -Z,
  * lifted onto the plane y = A*x + B*z + C. */
module Ground {
  import opened MeshCore
  import opened Grid

  /** X of grid column ix: -width/2 + ix * (width/nx). */
  function GroundX(width: real, nx: int, ix: int): real
    requires nx >= 1
  {
    -(width * 0.5) + ix as real * (width / nx as real)
  }

  /** Z of grid row iz: -iz * (length/nz). */
  function GroundZ(length: real, nz: int, iz: int): real
    requires nz >= 1
  {
    -(iz as real) * (length / nz as real)
  }

  /** Height of the slanted plane above (x, z). */
  function GroundY(A: real, B: real, C: real, x: real, z: real): real
  {
    A * x + B * z + C
  }

  /** Position of grid point p = (iz, ix), computed as the generator does:
    * x and z as above, lifted onto the plane y = A*x + B*z + C. */
  function GroundPoint(width: real, length: real, A: real, B: real, C: real, nx: int, nz: int, p: Point): (r: Vec3)
    requires nx >= 1 && nz >= 1
    ensures r.y == A * r.x + B * r.z + C
  {
    var x, z := GroundX(width, nx, p.col), GroundZ(length, nz, p.row);
    Vec3(x, GroundY(A, B, C, x, z), z)
  }

  /** Texture coordinate of grid point p = (iz, ix): (ix/nx, iz/nz * 5), so the
    * texture repeats five times along the depth; for a point of the grid it
    * lies in [0,1] x [0,5]. */
  function GroundUv(nx: int, nz: int, p: Point): (r: Vec2)
    requires nx >= 1 && nz >= 1
    ensures 0 <= p.col <= nx ==> 0.0 <= r.u <= 1.0
    ensures 0 <= p.row <= nz ==> 0.0 <= r.v <= 5.0
  {
    Vec2(p.col as real / nx as real, p.row as real / nz as real * 5.0)
  }

  function GroundPointAt(width: real, length: real, A: real, B: real, C: real, nx: int, nz: int): Point -> Vec3
    requires nx >= 1 && nz >= 1
  {
    p => GroundPoint(width, length, A, B, C, nx, nz, p)
  }

  function GroundUvAt(nx: int, nz: int): Point -> Vec2
    requires nx >= 1 && nz >= 1
  {
    p => GroundUv(nx, nz, p)
  }

  /** The ground's vertex list: nz + 1 rows of nx + 1 points. */
  function GroundVertices(width: real, length: real, A: real, B: real, C: real, nx: nat, nz: nat): seq<Vec3>
    requires nx >= 1 && nz >= 1
  {
    PointRows(GroundPointAt(width, length, A, B, C, nx, nz), nx, nz + 1)
  }

  /** The ground's UV list, one per vertex. */
  function GroundUvs(nx: nat, nz: nat): seq<Vec2>
    requires nx >= 1 && nz >= 1
  {
    PointRows(GroundUvAt(nx, nz), nx, nz + 1)
  }

  /** The ground mesh the generator registers. */
  function GroundMesh(width: real, length: real, A: real, B: real, C: real, nx: nat, nz: nat): Mesh
    requires nx >= 1 && nz >= 1
  {
    Mesh(GroundVertices(width, length, A, B, C, nx, nz), GridTris(nx, nz), GroundUvs(nx, nz))
  }

  /** The generator's first loop nest: the ground's vertex and UV lists, filled
    * row by row, one push per grid point. */
  method GroundGridVertices(width: real, length: real, A: real, B: real, C: real, nx: int, nz: int)
    returns (vertices: seq<Vec3>, uvs: seq<Vec2>)
    requires nx >= 1 && nz >= 1
    ensures vertices == GroundVertices(width, length, A, B, C, nx, nz)
    ensures uvs == GroundUvs(nx, nz)
  {
    ghost var f, g := GroundPointAt(width, length, A, B, C, nx, nz), GroundUvAt(nx, nz);
    vertices, uvs := [], [];
    var halfW := width * 0.5;
    var dx := width / nx as real;
    var dz := length / nz as real;

    var iz := 0;
    while iz <= nz
      invariant 0 <= iz <= nz + 1
      invariant vertices == PointRows(f, nx, iz) && uvs == PointRows(g, nx, iz)
    {
      var z := -(iz as real) * dz;
      var ix := 0;
      while ix <= nx
        invariant 0 <= ix <= nx + 1
        invariant vertices == PointRows(f, nx, iz) + PointRow(f, iz, ix)
        invariant uvs == PointRows(g, nx, iz) + PointRow(g, iz, ix)
      {
        var x := -halfW + ix as real * dx;
        var y := A * x + B * z + C;
        GroundPush(width, length, A, B, C, nx, nz, iz, ix, x, y, z, vertices, uvs);
        vertices := vertices + [Vec3(x, y, z)];
        uvs := uvs + [Vec2(ix as real / nx as real, iz as real / nz as real * 5.0)];
        ix := ix + 1;
      }
      iz := iz + 1;
    }
  }

  /** One step of the first loop nest: the position (x, y, z) and the UV the
    * generator computes for grid point (iz, ix) are the ground's point and UV
    * there, so pushing them extends the lists by that point. */
  lemma GroundPush(width: real, length: real, A: real, B: real, C: real, nx: nat, nz: nat, iz: nat, ix: nat,
                   x: real, y: real, z: real, vertices: seq<Vec3>, uvs: seq<Vec2>)
    requires nx >= 1 && nz >= 1
    requires x == -(width * 0.5) + ix as real * (width / nx as real)
    requires z == -(iz as real) * (length / nz as real)
    requires y == A * x + B * z + C
    requires vertices == PointRows(GroundPointAt(width, length, A, B, C, nx, nz), nx, iz)
                         + PointRow(GroundPointAt(width, length, A, B, C, nx, nz), iz, ix)
    requires uvs == PointRows(GroundUvAt(nx, nz), nx, iz) + PointRow(GroundUvAt(nx, nz), iz, ix)
    ensures vertices + [Vec3(x, y, z)]
         == PointRows(GroundPointAt(width, length, A, B, C, nx, nz), nx, iz)
            + PointRow(GroundPointAt(width, length, A, B, C, nx, nz), iz, ix + 1)
    ensures uvs + [Vec2(ix as real / nx as real, iz as real / nz as real * 5.0)]
         == PointRows(GroundUvAt(nx, nz), nx, iz) + PointRow(GroundUvAt(nx, nz), iz, ix + 1)
  {
    var f, g := GroundPointAt(width, length, A, B, C, nx, nz), GroundUvAt(nx, nz);
    assert y == GroundY(A, B, C, x, z);
    assert x == GroundX(width, nx, ix) && z == GroundZ(length, nz, iz);
    PointRowsPush(f, nx, iz, ix, vertices, Vec3(x, y, z));
    PointRowsPush(g, nx, iz, ix, uvs, g(Point(iz, ix)));
  }

  /** The generator's second loop nest: the ground's triangle list, filled cell
    * by cell with (i0, i1, i2) and (i1, i3, i2); it is the grid triangulation. */
  method GroundGridElements(nx: int, nz: int) returns (elements: seq<Tri>)
    requires nx >= 1 && nz >= 1
    ensures elements == GridTris(nx, nz)
  {
    elements := [];
    var iz := 0;
    while iz < nz
      invariant 0 <= iz <= nz
      invariant elements == GridTris(nx, iz)
    {
      var ix := 0;
      while ix < nx
        invariant 0 <= ix <= nx
        invariant elements == ToTris(nx, GridCells(nx, iz) + RowCells(iz, ix))
      {
        var i0 := iz * (nx + 1) + ix;
        var i1 := i0 + 1;
        var i2 := i0 + (nx + 1);
        var i3 := i2 + 1;
        GridCellStep(nx, iz, ix, i0, i1, i2, i3, elements);
        elements := elements + [Tri(i0, i1, i2)];
        elements := elements + [Tri(i1, i3, i2)];
        ix := ix + 1;
      }
      iz := iz + 1;
    }
  }

  /** The ground has (nx+1)*(nz+1) vertices with one UV each and 2*nx*nz
    * triangles; every index is in range, no triangle repeats an index, and the
    * triangulation is consistently oriented. */
  lemma GroundMeshShape(width: real, length: real, A: real, B: real, C: real, nx: int, nz: int)
    requires nx >= 1 && nz >= 1
    ensures var m := GroundMesh(width, length, A, B, C, nx, nz);
      |m.vertices| == |m.uvs| == (nx + 1) * (nz + 1) && |m.elements| == 2 * nx * nz &&
      WellFormed(m) && NonDegenerate(m.elements) && Oriented(m.elements)
  {
    PointRowsLength(GroundPointAt(width, length, A, B, C, nx, nz), nx, nz + 1);
    PointRowsLength(GroundUvAt(nx, nz), nx, nz + 1);
    GridTrisInRange(nx, nz);
    GridTrisNonDegenerate(nx, nz);
    GridTrisOriented(nx, nz);
  }

  /** Grid point (iz, ix) is stored at index iz*(nx+1)+ix, with the position
    * and UV the generator gives it. */
  lemma GroundVertexAt(width: real, length: real, A: real, B: real, C: real, nx: int, nz: int, iz: int, ix: int)
    requires nx >= 1 && nz >= 1 && 0 <= iz <= nz && 0 <= ix <= nx
    ensures var k := iz * (nx + 1) + ix;
      0 <= k < |GroundVertices(width, length, A, B, C, nx, nz)| && k < |GroundUvs(nx, nz)| &&
      GroundVertices(width, length, A, B, C, nx, nz)[k] == GroundPoint(width, length, A, B, C, nx, nz, Point(iz, ix)) &&
      GroundUvs(nx, nz)[k] == Vec2(ix as real / nx as real, iz as real / nz as real * 5.0)
  {
    PointRowsAtCorner(GroundPointAt(width, length, A, B, C, nx, nz), nx, nz + 1, Point(iz, ix));
    PointRowsAtCorner(GroundUvAt(nx, nz), nx, nz + 1, Point(iz, ix));
  }

  /** i * (s / n) lies between 0 and s for 0 <= i <= n and s >= 0, and
    * i / n lies in [0, 1]. */
  lemma FractionInUnit(i: int, n: int, s: real)
    requires 0 <= i <= n && n >= 1
    ensures 0.0 <= i as real / n as real <= 1.0
    ensures s >= 0.0 ==> 0.0 <= i as real * (s / n as real) <= s
  {
    var f := i as real / n as real;
    assert i as real * (s / n as real) == f * s;
  }

  /** One grid point lies on the plane y = A*x + B*z + C, inside the rectangle
    * when its sides are non-negative, and its UV lies in [0,1] x [0,5]. */
  lemma GroundPointInside(width: real, length: real, A: real, B: real, C: real, nx: int, nz: int, p: Point)
    requires nx >= 1 && nz >= 1 && 0 <= p.row <= nz && 0 <= p.col <= nx
    ensures var v := GroundPoint(width, length, A, B, C, nx, nz, p);
      v.y == A * v.x + B * v.z + C &&
      (width >= 0.0 ==> -width / 2.0 <= v.x <= width / 2.0) &&
      (length >= 0.0 ==> -length <= v.z <= 0.0)
    ensures 0.0 <= GroundUv(nx, nz, p).u <= 1.0 && 0.0 <= GroundUv(nx, nz, p).v <= 5.0
  {
    FractionInUnit(p.col, nx, width);
    FractionInUnit(p.row, nz, length);
  }

  /** Every ground vertex lies on the plane y = A*x + B*z + C, and inside the
    * rectangle [-width/2, width/2] x [-length, 0] when width and length are
    * non-negative. */
  lemma GroundInsideRectangle(width: real, length: real, A: real, B: real, C: real, nx: int, nz: int)
    requires nx >= 1 && nz >= 1
    ensures forall k :: 0 <= k < |GroundVertices(width, length, A, B, C, nx, nz)| ==>
      var v := GroundVertices(width, length, A, B, C, nx, nz)[k];
      v.y == A * v.x + B * v.z + C &&
      (width >= 0.0 ==> -width / 2.0 <= v.x <= width / 2.0) &&
      (length >= 0.0 ==> -length <= v.z <= 0.0)
  {
    var f := GroundPointAt(width, length, A, B, C, nx, nz);
    var vs := GroundVertices(width, length, A, B, C, nx, nz);
    PointRowsLength(f, nx, nz + 1);
    forall k | 0 <= k < |vs|
      ensures vs[k].y == A * vs[k].x + B * vs[k].z + C
      ensures width >= 0.0 ==> -width / 2.0 <= vs[k].x <= width / 2.0
      ensures length >= 0.0 ==> -length <= vs[k].z <= 0.0
    {
      PointRowsAt(f, nx, nz + 1, k);
      var p := Decode(nx, k);
      assert vs[k] == GroundPoint(width, length, A, B, C, nx, nz, p);
      GroundPointInside(width, length, A, B, C, nx, nz, p);
    }
  }

  /** Every ground UV lies in [0,1] x [0,5]. */
  lemma GroundUvsInRange(nx: int, nz: int)
    requires nx >= 1 && nz >= 1
    ensures forall k :: 0 <= k < |GroundUvs(nx, nz)| ==>
      0.0 <= GroundUvs(nx, nz)[k].u <= 1.0 && 0.0 <= GroundUvs(nx, nz)[k].v <= 5.0
  {
    var g := GroundUvAt(nx, nz);
    var us := GroundUvs(nx, nz);
    PointRowsLength(g, nx, nz + 1);
    forall k | 0 <= k < |us|
      ensures 0.0 <= us[k].u <= 1.0 && 0.0 <= us[k].v <= 5.0
    {
      PointRowsAt(g, nx, nz + 1, k);
      var p := Decode(nx, k);
      assert us[k] == GroundUv(nx, nz, p);
      GroundPointInside(0.0, 0.0, 0.0, 0.0, 0.0, nx, nz, p);
    }
  }

  /** The far corner of the grid lies at (width/2, -length) with UV (1, 5). */
  lemma GroundFarCorner(width: real, length: real, A: real, B: real, C: real, nx: int, nz: int)
    requires nx >= 1 && nz >= 1
    ensures GroundPoint(width, length, A, B, C, nx, nz, Point(nz, nx)).x == width / 2.0
    ensures GroundPoint(width, length, A, B, C, nx, nz, Point(nz, nx)).z == -length
    ensures GroundUv(nx, nz, Point(nz, nx)) == Vec2(1.0, 5.0)
  {
    assert nx as real * (width / nx as real) == width;
    assert nz as real * (length / nz as real) == length;
    assert nz as real / nz as real == 1.0;
    assert nx as real / nx as real == 1.0;
  }

  /** The grid spans the whole rectangle: its first point is (-width/2, 0) with
    * UV (0, 0), its last point is (width/2, -length) with UV (1, 5). */
  lemma GroundCorners(width: real, length: real, A: real, B: real, C: real, nx: int, nz: int)
    requires nx >= 1 && nz >= 1
    ensures var vs, n := GroundVertices(width, length, A, B, C, nx, nz), (nx + 1) * (nz + 1);
      |vs| == n && vs[0].x == -width / 2.0 && vs[0].z == 0.0 &&
      vs[n - 1].x == width / 2.0 && vs[n - 1].z == -length
    ensures var uvs, n := GroundUvs(nx, nz), (nx + 1) * (nz + 1);
      |uvs| == n && uvs[0] == Vec2(0.0, 0.0) && uvs[n - 1] == Vec2(1.0, 5.0)
  {
    GroundMeshShape(width, length, A, B, C, nx, nz);
    GroundVertexAt(width, length, A, B, C, nx, nz, 0, 0);
    GroundVertexAt(width, length, A, B, C, nx, nz, nz, nx);
    assert nz * (nx + 1) + nx == (nx + 1) * (nz + 1) - 1;
    GroundFarCorner(width, length, A, B, C, nx, nz);
  }
  /** Both triangles of cell (iz, ix) have the same upward right-hand normal
    * component dx * dz, the area of the cell projected onto the XZ plane. */
  lemma GroundCellFacesUp(width: real, length: real, A: real, B: real, C: real, nx: int, nz: int, iz: int, ix: int)
    requires nx >= 1 && nz >= 1
    ensures var P := GroundPointAt(width, length, A, B, C, nx, nz);
      var area := (width / nx as real) * (length / nz as real);
      Normal(P(Point(iz, ix)), P(Point(iz, ix + 1)), P(Point(iz + 1, ix))).y == area &&
      Normal(P(Point(iz, ix + 1)), P(Point(iz + 1, ix + 1)), P(Point(iz + 1, ix))).y == area
  {
    var dx, dz := width / nx as real, length / nz as real;
    var P := GroundPointAt(width, length, A, B, C, nx, nz);
    var p0, p1 := P(Point(iz, ix)), P(Point(iz, ix + 1));
    var p2, p3 := P(Point(iz + 1, ix)), P(Point(iz + 1, ix + 1));
    assert p1.x - p0.x == dx && p3.x - p2.x == dx && p1.z == p0.z && p3.z == p2.z by {
      assert (ix + 1) as real * dx == ix as real * dx + dx;
    }
    assert p2.z - p0.z == -dz && p2.x == p0.x && p3.x == p1.x by {
      assert -((iz + 1) as real) * dz == -(iz as real) * dz - dz;
    }
  }

  /** Every ground triangle faces up: the Y component of its right-hand normal
    * is (width/nx) * (length/nz), positive when width and length are, so the
    * triangles wind counter-clockwise seen from above. */
  lemma GroundFacesUp(width: real, length: real, A: real, B: real, C: real, nx: int, nz: int)
    requires nx >= 1 && nz >= 1
    ensures var vs, ts := GroundVertices(width, length, A, B, C, nx, nz), GridTris(nx, nz);
      forall k :: 0 <= k < |ts| ==>
        0 <= ts[k].a < |vs| && 0 <= ts[k].b < |vs| && 0 <= ts[k].c < |vs| &&
        Normal(vs[ts[k].a], vs[ts[k].b], vs[ts[k].c]).y == (width / nx as real) * (length / nz as real)
  {
    var P := GroundPointAt(width, length, A, B, C, nx, nz);
    var vs, ts := GroundVertices(width, length, A, B, C, nx, nz), GridTris(nx, nz);
    GridTrisLength(nx, nz);
    forall k | 0 <= k < |ts|
      ensures 0 <= ts[k].a < |vs| && 0 <= ts[k].b < |vs| && 0 <= ts[k].c < |vs|
      ensures Normal(vs[ts[k].a], vs[ts[k].b], vs[ts[k].c]).y == (width / nx as real) * (length / nz as real)
    {
      var iz, ix, s := CellOfGridTri(nx, nz, k);
      var t := CellPoints(iz, ix, s);
      assert ts[k] == ToTri(nx, t);
      PointRowsAtCorner(P, nx, nz + 1, t.a);
      PointRowsAtCorner(P, nx, nz + 1, t.b);
      PointRowsAtCorner(P, nx, nz + 1, t.c);
      GroundCellFacesUp(width, length, A, B, C, nx, nz, iz, ix);
    }
  }
}
