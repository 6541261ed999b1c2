/** The UV sphere: stacks + 1 rings of slices + 1 points from the north pole
  * (phi = 0) to the south pole (phi = pi), the first and last point of each
  * ring both at theta = 0 = 2 pi so the texture can wrap; each quad between two
  * rings is split into two triangles wound opposite to the ground's. The
  * single-precision sine and cosine are parameters of the model. */
module Sphere {
  import opened MeshCore
  import opened Grid

  /** Position of ring i, column j: v = i/stacks, phi = v*pi, u = j/slices,
    * theta = u*2*pi, and the point is
    * radius * (sin phi cos theta, cos phi, sin phi sin theta). Whenever
    * sin^2 + cos^2 = 1 it lies on the sphere of that radius. */
  function SpherePoint(radius: real, sin: real -> real, cos: real -> real, slices: int, stacks: int, p: Point): (r: Vec3)
    requires slices >= 1 && stacks >= 1
    ensures (forall a :: sin(a) * sin(a) + cos(a) * cos(a) == 1.0) ==> OnSphere(r, radius)
  {
    var v := p.row as real / stacks as real;
    var phi := v * Pi;
    var u := p.col as real / slices as real;
    var theta := u * 2.0 * Pi;
    SphereNorm(radius, sin(phi), cos(phi), sin(theta), cos(theta));
    Vec3(radius * sin(phi) * cos(theta), radius * cos(phi), radius * sin(phi) * sin(theta))
  }

  /** radius * (sp ct, cp, sp st) lies at distance radius from the origin when
    * sp^2 + cp^2 = 1 and st^2 + ct^2 = 1. */
  lemma SphereNorm(radius: real, sp: real, cp: real, st: real, ct: real)
    ensures sp * sp + cp * cp == 1.0 && st * st + ct * ct == 1.0 ==>
      OnSphere(Vec3(radius * sp * ct, radius * cp, radius * sp * st), radius)
  {
    if sp * sp + cp * cp == 1.0 && st * st + ct * ct == 1.0 {
      calc {
        (radius * sp * ct) * (radius * sp * ct) + (radius * cp) * (radius * cp) + (radius * sp * st) * (radius * sp * st);
        radius * radius * (sp * sp * (ct * ct + st * st) + cp * cp);
        radius * radius * (sp * sp + cp * cp);
        radius * radius;
      }
    }
  }

  /** Texture coordinate of ring i, column j: (j/slices, i/stacks), in the unit
    * square for the points of the sphere. */
  function SphereUv(slices: int, stacks: int, p: Point): (r: Vec2)
    requires slices >= 1 && stacks >= 1
    ensures 0 <= p.col <= slices ==> 0.0 <= r.u <= 1.0
    ensures 0 <= p.row <= stacks ==> 0.0 <= r.v <= 1.0
  {
    Vec2(p.col as real / slices as real, p.row as real / stacks as real)
  }

  function SpherePointAt(radius: real, sin: real -> real, cos: real -> real, slices: int, stacks: int): Point -> Vec3
    requires slices >= 1 && stacks >= 1
  {
    p => SpherePoint(radius, sin, cos, slices, stacks, p)
  }

  function SphereUvAt(slices: int, stacks: int): Point -> Vec2
    requires slices >= 1 && stacks >= 1
  {
    p => SphereUv(slices, stacks, p)
  }

  /** The sphere's vertex list: stacks + 1 rings of slices + 1 points. */
  function SphereVertices(radius: real, sin: real -> real, cos: real -> real, slices: nat, stacks: nat): seq<Vec3>
    requires slices >= 1 && stacks >= 1
  {
    PointRows(SpherePointAt(radius, sin, cos, slices, stacks), slices, stacks + 1)
  }

  function SphereUvs(slices: nat, stacks: nat): seq<Vec2>
    requires slices >= 1 && stacks >= 1
  {
    PointRows(SphereUvAt(slices, stacks), slices, stacks + 1)
  }

  /** The sphere's triangles: the grid triangulation of slices x stacks cells
    * with every triangle's winding reversed. */
  function SphereElements(slices: nat, stacks: nat): seq<Tri>
  {
    Flipped(GridTris(slices, stacks))
  }

  /** The sphere mesh the generator registers. */
  function SphereMesh(radius: real, sin: real -> real, cos: real -> real, slices: nat, stacks: nat): Mesh
    requires slices >= 1 && stacks >= 1
  {
    Mesh(SphereVertices(radius, sin, cos, slices, stacks), SphereElements(slices, stacks), SphereUvs(slices, stacks))
  }

  /** The generator's first loop nest: vertices and UVs, ring by ring. */
  method SphereGridVertices(radius: real, slices: int, stacks: int, sin: real -> real, cos: real -> real)
    returns (vertices: seq<Vec3>, uvs: seq<Vec2>)
    requires slices >= 1 && stacks >= 1
    ensures vertices == SphereVertices(radius, sin, cos, slices, stacks)
    ensures uvs == SphereUvs(slices, stacks)
  {
    ghost var f, g := SpherePointAt(radius, sin, cos, slices, stacks), SphereUvAt(slices, stacks);
    vertices, uvs := [], [];
    var i := 0;
    while i <= stacks
      invariant 0 <= i <= stacks + 1
      invariant vertices == PointRows(f, slices, i) && uvs == PointRows(g, slices, i)
    {
      var v := i as real / stacks as real;
      var phi := v * Pi;
      var j := 0;
      while j <= slices
        invariant 0 <= j <= slices + 1
        invariant vertices == PointRows(f, slices, i) + PointRow(f, i, j)
        invariant uvs == PointRows(g, slices, i) + PointRow(g, i, j)
      {
        var u := j as real / slices as real;
        var theta := u * 2.0 * Pi;
        var x := radius * sin(phi) * cos(theta);
        var y := radius * cos(phi);
        var z := radius * sin(phi) * sin(theta);
        SpherePush(radius, sin, cos, slices, stacks, i, j, u, v, x, y, z, vertices, uvs);
        vertices := vertices + [Vec3(x, y, z)];
        uvs := uvs + [Vec2(u, v)];
        j := j + 1;
      }
      i := i + 1;
    }
  }

  /** The generator's second loop nest: the triangles (i0, i2, i1) and
    * (i1, i2, i3) of each quad, ring by ring. */
  method SphereGridElements(slices: int, stacks: int) returns (elements: seq<Tri>)
    requires slices >= 1 && stacks >= 1
    ensures elements == SphereElements(slices, stacks)
  {
    elements := [];
    var vertsPerRow := slices + 1;
    var i := 0;
    while i < stacks
      invariant 0 <= i <= stacks
      invariant elements == Flipped(GridTris(slices, i))
    {
      var j := 0;
      while j < slices
        invariant 0 <= j <= slices
        invariant elements == Flipped(ToTris(slices, GridCells(slices, i) + RowCells(i, j)))
      {
        var i0 := i * vertsPerRow + j;
        var i1 := i0 + 1;
        var i2 := i0 + vertsPerRow;
        var i3 := i2 + 1;
        SphereCellStep(slices, i, j, i0, i1, i2, i3, elements);
        elements := elements + [Tri(i0, i2, i1)];
        elements := elements + [Tri(i1, i2, i3)];
        j := j + 1;
      }
      i := i + 1;
    }
  }

  /** One step of the first loop nest: the position and UV the generator
    * computes for ring i, column j are the sphere's point and UV there, so
    * pushing them extends the lists by that point. */
  lemma SpherePush(radius: real, sin: real -> real, cos: real -> real, slices: nat, stacks: nat, i: nat, j: nat,
                   u: real, v: real, x: real, y: real, z: real, vertices: seq<Vec3>, uvs: seq<Vec2>)
    requires slices >= 1 && stacks >= 1
    requires v == i as real / stacks as real && u == j as real / slices as real
    requires x == radius * sin(v * Pi) * cos(u * 2.0 * Pi)
    requires y == radius * cos(v * Pi)
    requires z == radius * sin(v * Pi) * sin(u * 2.0 * Pi)
    requires vertices == PointRows(SpherePointAt(radius, sin, cos, slices, stacks), slices, i)
                         + PointRow(SpherePointAt(radius, sin, cos, slices, stacks), i, j)
    requires uvs == PointRows(SphereUvAt(slices, stacks), slices, i) + PointRow(SphereUvAt(slices, stacks), i, j)
    ensures vertices + [Vec3(x, y, z)]
         == PointRows(SpherePointAt(radius, sin, cos, slices, stacks), slices, i)
            + PointRow(SpherePointAt(radius, sin, cos, slices, stacks), i, j + 1)
    ensures uvs + [Vec2(u, v)]
         == PointRows(SphereUvAt(slices, stacks), slices, i) + PointRow(SphereUvAt(slices, stacks), i, j + 1)
  {
    var f, g := SpherePointAt(radius, sin, cos, slices, stacks), SphereUvAt(slices, stacks);
    assert f(Point(i, j)) == Vec3(x, y, z);
    PointRowsPush(f, slices, i, j, vertices, Vec3(x, y, z));
    PointRowsPush(g, slices, i, j, uvs, Vec2(u, v));
  }

  /** One step of the second loop nest: the triangles (i0, i2, i1) and
    * (i1, i2, i3) of quad (i, j) are the reversed triangles of grid cell
    * (i, j). */
  lemma SphereCellStep(slices: nat, i: nat, j: nat, i0: int, i1: int, i2: int, i3: int, elements: seq<Tri>)
    requires i0 == i * (slices + 1) + j && i1 == i0 + 1 && i2 == i0 + (slices + 1) && i3 == i2 + 1
    requires elements == Flipped(ToTris(slices, GridCells(slices, i) + RowCells(i, j)))
    ensures elements + [Tri(i0, i2, i1)] + [Tri(i1, i2, i3)]
         == Flipped(ToTris(slices, GridCells(slices, i) + RowCells(i, j + 1)))
  {
    var before := ToTris(slices, GridCells(slices, i) + RowCells(i, j));
    var t0, t1 := Tri(i0, i1, i2), Tri(i1, i3, i2);
    CellTriIndices(slices, i, j);
    ToTrisPush(slices, GridCells(slices, i), i, j);
    assert ToTris(slices, GridCells(slices, i) + RowCells(i, j + 1)) == before + [t0, t1];
    FlippedPush(before, t0);
    FlippedPush(before + [t0], t1);
    assert before + [t0] + [t1] == before + [t0, t1];
  }

  /** The sphere has (stacks+1)*(slices+1) vertices with one UV each and
    * 2*slices*stacks triangles; every index is in range, no triangle repeats
    * an index, and the triangulation is consistently oriented. */
  lemma SphereMeshShape(radius: real, sin: real -> real, cos: real -> real, slices: int, stacks: int)
    requires slices >= 1 && stacks >= 1
    ensures var m := SphereMesh(radius, sin, cos, slices, stacks);
      |m.vertices| == |m.uvs| == (stacks + 1) * (slices + 1) && |m.elements| == 2 * slices * stacks &&
      WellFormed(m) && NonDegenerate(m.elements) && Oriented(m.elements)
  {
    PointRowsLength(SpherePointAt(radius, sin, cos, slices, stacks), slices, stacks + 1);
    PointRowsLength(SphereUvAt(slices, stacks), slices, stacks + 1);
    GridTrisInRange(slices, stacks);
    GridTrisNonDegenerate(slices, stacks);
    GridTrisOriented(slices, stacks);
    FlippedPreserves(GridTris(slices, stacks), (slices + 1) * (stacks + 1));
  }

  /** Ring i, column j is stored at index i*(slices+1)+j, with UV
    * (j/slices, i/stacks). */
  lemma SphereVertexAt(radius: real, sin: real -> real, cos: real -> real, slices: int, stacks: int, i: int, j: int)
    requires slices >= 1 && stacks >= 1 && 0 <= i <= stacks && 0 <= j <= slices
    ensures var k := i * (slices + 1) + j;
      0 <= k < |SphereVertices(radius, sin, cos, slices, stacks)| && k < |SphereUvs(slices, stacks)| &&
      SphereVertices(radius, sin, cos, slices, stacks)[k] == SpherePoint(radius, sin, cos, slices, stacks, Point(i, j)) &&
      SphereUvs(slices, stacks)[k] == Vec2(j as real / slices as real, i as real / stacks as real)
  {
    PointRowsAtCorner(SpherePointAt(radius, sin, cos, slices, stacks), slices, stacks + 1, Point(i, j));
    PointRowsAtCorner(SphereUvAt(slices, stacks), slices, stacks + 1, Point(i, j));
  }

  /** Every UV lies in the unit square. */
  lemma SphereUvsInRange(slices: int, stacks: int)
    requires slices >= 1 && stacks >= 1
    ensures forall k :: 0 <= k < |SphereUvs(slices, stacks)| ==>
      0.0 <= SphereUvs(slices, stacks)[k].u <= 1.0 && 0.0 <= SphereUvs(slices, stacks)[k].v <= 1.0
  {
    var g := SphereUvAt(slices, stacks);
    var us := SphereUvs(slices, stacks);
    PointRowsLength(g, slices, stacks + 1);
    forall k | 0 <= k < |us|
      ensures 0.0 <= us[k].u <= 1.0 && 0.0 <= us[k].v <= 1.0
    {
      PointRowsAt(g, slices, stacks + 1, k);
      var p := Decode(slices, k);
      assert us[k] == SphereUv(slices, stacks, p);
    }
  }

  /** v lies at distance radius from the origin. */
  predicate OnSphere(v: Vec3, radius: real)
  {
    v.x * v.x + v.y * v.y + v.z * v.z == radius * radius
  }

  /** With sin^2 + cos^2 = 1, every vertex lies on the sphere of the given
    * radius around the centre. */
  lemma SphereOnSurface(radius: real, sin: real -> real, cos: real -> real, slices: int, stacks: int)
    requires slices >= 1 && stacks >= 1
    requires forall a :: sin(a) * sin(a) + cos(a) * cos(a) == 1.0
    ensures forall k :: 0 <= k < |SphereVertices(radius, sin, cos, slices, stacks)| ==>
      OnSphere(SphereVertices(radius, sin, cos, slices, stacks)[k], radius)
  {
    var f := SpherePointAt(radius, sin, cos, slices, stacks);
    var vs := SphereVertices(radius, sin, cos, slices, stacks);
    PointRowsLength(f, slices, stacks + 1);
    forall k | 0 <= k < |vs|
      ensures OnSphere(vs[k], radius)
    {
      PointRowsAt(f, slices, stacks + 1, k);
      assert vs[k] == SpherePoint(radius, sin, cos, slices, stacks, Decode(slices, k));
    }
  }

  /** With sin 0 = 0, cos 0 = 1, sin pi = 0 and cos pi = -1, the first ring
    * collapses onto the north pole (0, radius, 0) and the last ring onto the
    * south pole (0, -radius, 0). */
  lemma SpherePoles(radius: real, sin: real -> real, cos: real -> real, slices: int, stacks: int, j: int)
    requires slices >= 1 && stacks >= 1 && 0 <= j <= slices
    requires sin(0.0) == 0.0 && cos(0.0) == 1.0 && sin(Pi) == 0.0 && cos(Pi) == -1.0
    ensures SpherePoint(radius, sin, cos, slices, stacks, Point(0, j)) == Vec3(0.0, radius, 0.0)
    ensures SpherePoint(radius, sin, cos, slices, stacks, Point(stacks, j)) == Vec3(0.0, -radius, 0.0)
  {
    assert 0 as real / stacks as real * Pi == 0.0;
    assert stacks as real / stacks as real * Pi == Pi;
  }

  /** Triangle 2j, the first triangle of quad (0, j), is (j, j + slices + 1, j + 1). */
  lemma SphereNorthTriangle(slices: int, stacks: int, j: int)
    requires slices >= 1 && stacks >= 1 && 0 <= j < slices
    ensures 2 * j < |SphereElements(slices, stacks)|
    ensures SphereElements(slices, stacks)[2 * j] == Tri(j, j + slices + 1, j + 1)
  {
    GridTriOfCell(slices, stacks, 0, j, false);
    CellTriIndices(slices, 0, j);
  }

  /** The second triangle of quad (stacks - 1, j) is (n + j - slices, n + j, n + j + 1),
    * where n = stacks * (slices + 1) is the index of the last ring's first point. */
  lemma SphereSouthTriangle(slices: int, stacks: int, j: int)
    requires slices >= 1 && stacks >= 1 && 0 <= j < slices
    ensures var q, n := |GridTris(slices, stacks - 1)| + 2 * j + 1, stacks * (slices + 1);
      q < |SphereElements(slices, stacks)| &&
      SphereElements(slices, stacks)[q] == Tri(n + j - slices, n + j, n + j + 1)
  {
    GridTriOfCell(slices, stacks, stacks - 1, j, true);
    CellTriIndices(slices, stacks - 1, j);
    assert (stacks - 1) * (slices + 1) + j + (slices + 1) == stacks * (slices + 1) + j;
  }

  /** The j-th point of the first ring is the north pole and the j-th point
    * of the last ring, at index stacks * (slices + 1) + j, the south pole. */
  lemma SpherePoleVertices(radius: real, sin: real -> real, cos: real -> real, slices: int, stacks: int, j: int)
    requires slices >= 1 && stacks >= 1 && 0 <= j <= slices
    requires sin(0.0) == 0.0 && cos(0.0) == 1.0 && sin(Pi) == 0.0 && cos(Pi) == -1.0
    ensures var vs, n := SphereVertices(radius, sin, cos, slices, stacks), stacks * (slices + 1);
      n + j < |vs| && vs[j] == Vec3(0.0, radius, 0.0) && vs[n + j] == Vec3(0.0, -radius, 0.0)
  {
    SphereVertexAt(radius, sin, cos, slices, stacks, 0, j);
    SphereVertexAt(radius, sin, cos, slices, stacks, stacks, j);
    SpherePoles(radius, sin, cos, slices, stacks, j);
  }

  /** With sin 0 = 0, cos 0 = 1: the first triangle of every quad of the first
    * band has zero area, its first and last corners both at the north pole,
    * although its three indices are distinct. */
  lemma SphereNorthPoleTriangles(radius: real, sin: real -> real, cos: real -> real, slices: int, stacks: int, j: int)
    requires slices >= 1 && stacks >= 1 && 0 <= j < slices
    requires sin(0.0) == 0.0 && cos(0.0) == 1.0 && sin(Pi) == 0.0 && cos(Pi) == -1.0
    ensures var vs, ts := SphereVertices(radius, sin, cos, slices, stacks), SphereElements(slices, stacks);
      2 * j < |ts| && ts[2 * j] == Tri(j, j + slices + 1, j + 1) && j + 1 < |vs| &&
      vs[j] == vs[j + 1] == Vec3(0.0, radius, 0.0)
  {
    SphereNorthTriangle(slices, stacks, j);
    SpherePoleVertices(radius, sin, cos, slices, stacks, j);
    SpherePoleVertices(radius, sin, cos, slices, stacks, j + 1);
  }

  /** With sin pi = 0, cos pi = -1: the second triangle of every quad of the
    * last band has zero area, its last two corners both at the south pole. */
  lemma SphereSouthPoleTriangles(radius: real, sin: real -> real, cos: real -> real, slices: int, stacks: int, j: int)
    requires slices >= 1 && stacks >= 1 && 0 <= j < slices
    requires sin(0.0) == 0.0 && cos(0.0) == 1.0 && sin(Pi) == 0.0 && cos(Pi) == -1.0
    ensures var vs, ts := SphereVertices(radius, sin, cos, slices, stacks), SphereElements(slices, stacks);
      var q, n := |GridTris(slices, stacks - 1)| + 2 * j + 1, stacks * (slices + 1);
      q < |ts| && ts[q] == Tri(n + j - slices, n + j, n + j + 1) && n + j + 1 < |vs| &&
      vs[n + j] == vs[n + j + 1] == Vec3(0.0, -radius, 0.0)
  {
    SphereSouthTriangle(slices, stacks, j);
    SpherePoleVertices(radius, sin, cos, slices, stacks, j);
    SpherePoleVertices(radius, sin, cos, slices, stacks, j + 1);
  }

  /** With sine and cosine 2 pi-periodic at 0, the first and the last point of
    * every ring coincide: the seam is duplicated, with texture u = 0 on one copy
    * and u = 1 on the other. */
  lemma SphereSeam(radius: real, sin: real -> real, cos: real -> real, slices: int, stacks: int, i: int)
    requires slices >= 1 && stacks >= 1
    requires sin(2.0 * Pi) == sin(0.0) && cos(2.0 * Pi) == cos(0.0)
    ensures SpherePoint(radius, sin, cos, slices, stacks, Point(i, slices)) ==
            SpherePoint(radius, sin, cos, slices, stacks, Point(i, 0))
    ensures SphereUv(slices, stacks, Point(i, 0)).u == 0.0 && SphereUv(slices, stacks, Point(i, slices)).u == 1.0
  {
    assert slices as real / slices as real * 2.0 * Pi == 2.0 * Pi;
    assert 0 as real / slices as real * 2.0 * Pi == 0.0;
  }
}
