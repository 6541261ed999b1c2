/** The open cylinder: slices + 1 pairs of rim points, each pair a bottom point
  * on y = 0 followed by the top point straight above it on y = height, with
  * the first and last pair both at angle 0 = 2 pi; each quad of the side is
  * split into two triangles, and there are no caps. It is the grid of one
  * column of cells and slices rows, with the sphere's reversed winding. The
  * sine and cosine are parameters of the model. */
module Cylinder {
  import opened MeshCore
  import opened Grid

  /** Point p = (i, c) of the side: the bottom (c = 0) or top (c = 1) point at
    * t = i/slices, angle = t*2*pi, x = radius*cos(angle), z = radius*sin(angle).
    * It lies on the bottom or the top rim, at distance radius from the axis
    * whenever sin^2 + cos^2 = 1. */
  function CylinderPoint(radius: real, height: real, sin: real -> real, cos: real -> real, slices: int, p: Point): (r: Vec3)
    requires slices >= 1
    ensures r.y == 0.0 || r.y == height
    ensures (forall a :: sin(a) * sin(a) + cos(a) * cos(a) == 1.0) ==> OnSide(r, radius)
  {
    var t := p.row as real / slices as real;
    var angle := t * 2.0 * Pi;
    CircleNorm(radius, sin(angle), cos(angle));
    Vec3(radius * cos(angle), if p.col == 0 then 0.0 else height, radius * sin(angle))
  }

  /** (radius*c, radius*s) lies at distance radius from the origin when
    * s^2 + c^2 = 1. */
  lemma CircleNorm(radius: real, s: real, c: real)
    ensures s * s + c * c == 1.0 ==> (radius * c) * (radius * c) + (radius * s) * (radius * s) == radius * radius
  {
    assert (radius * c) * (radius * c) + (radius * s) * (radius * s) == radius * radius * (s * s + c * c);
  }

  /** Texture coordinate of point (i, c): (i/slices, 0) at the bottom and
    * (i/slices, 1) at the top; u lies in [0, 1] for the slices + 1 steps. */
  function CylinderUv(slices: int, p: Point): (r: Vec2)
    requires slices >= 1
    ensures 0 <= p.row <= slices ==> 0.0 <= r.u <= 1.0
    ensures r.v == 0.0 || r.v == 1.0
  {
    Vec2(p.row as real / slices as real, if p.col == 0 then 0.0 else 1.0)
  }

  function CylinderPointAt(radius: real, height: real, sin: real -> real, cos: real -> real, slices: int): Point -> Vec3
    requires slices >= 1
  {
    p => CylinderPoint(radius, height, sin, cos, slices, p)
  }

  function CylinderUvAt(slices: int): Point -> Vec2
    requires slices >= 1
  {
    p => CylinderUv(slices, p)
  }

  /** The cylinder's vertex list: slices + 1 rows of a bottom and a top point. */
  function CylinderVertices(radius: real, height: real, sin: real -> real, cos: real -> real, slices: nat): seq<Vec3>
    requires slices >= 1
  {
    PointRows(CylinderPointAt(radius, height, sin, cos, slices), 1, slices + 1)
  }

  function CylinderUvs(slices: nat): seq<Vec2>
    requires slices >= 1
  {
    PointRows(CylinderUvAt(slices), 1, slices + 1)
  }

  /** The cylinder's triangles: the one-column grid triangulation with every
    * triangle's winding reversed. */
  function CylinderElements(slices: nat): seq<Tri>
  {
    Flipped(GridTris(1, slices))
  }

  /** The cylinder mesh the generator registers. */
  function CylinderMesh(radius: real, height: real, sin: real -> real, cos: real -> real, slices: nat): Mesh
    requires slices >= 1
  {
    Mesh(CylinderVertices(radius, height, sin, cos, slices), CylinderElements(slices), CylinderUvs(slices))
  }

  /** The generator's first loop: per step a bottom and a top vertex with their UVs. */
  method CylinderRimVertices(radius: real, height: real, slices: int, sin: real -> real, cos: real -> real)
    returns (vertices: seq<Vec3>, uvs: seq<Vec2>)
    requires slices >= 1
    ensures vertices == CylinderVertices(radius, height, sin, cos, slices)
    ensures uvs == CylinderUvs(slices)
  {
    ghost var f, g := CylinderPointAt(radius, height, sin, cos, slices), CylinderUvAt(slices);
    vertices, uvs := [], [];
    var i := 0;
    while i <= slices
      invariant 0 <= i <= slices + 1
      invariant vertices == PointRows(f, 1, i) && uvs == PointRows(g, 1, i)
    {
      var t := i as real / slices as real;
      var angle := t * 2.0 * Pi;
      var x := radius * cos(angle);
      var z := radius * sin(angle);
      CylinderPush(radius, height, sin, cos, slices, i, t, x, z, vertices, uvs);

      vertices := vertices + [Vec3(x, 0.0, z)];
      uvs := uvs + [Vec2(t, 0.0)];

      vertices := vertices + [Vec3(x, height, z)];
      uvs := uvs + [Vec2(t, 1.0)];
      i := i + 1;
    }
  }

  /** One step of the first loop: the bottom and top points and UVs the
    * generator computes for step i are the cylinder's points (i, 0) and (i, 1),
    * so pushing them extends the lists by row i. */
  lemma CylinderPush(radius: real, height: real, sin: real -> real, cos: real -> real, slices: int, i: nat,
                     t: real, x: real, z: real, vertices: seq<Vec3>, uvs: seq<Vec2>)
    requires slices >= 1
    requires t == i as real / slices as real
    requires x == radius * cos(t * 2.0 * Pi) && z == radius * sin(t * 2.0 * Pi)
    requires vertices == PointRows(CylinderPointAt(radius, height, sin, cos, slices), 1, i)
    requires uvs == PointRows(CylinderUvAt(slices), 1, i)
    ensures vertices + [Vec3(x, 0.0, z)] + [Vec3(x, height, z)]
         == PointRows(CylinderPointAt(radius, height, sin, cos, slices), 1, i + 1)
    ensures uvs + [Vec2(t, 0.0)] + [Vec2(t, 1.0)] == PointRows(CylinderUvAt(slices), 1, i + 1)
  {
    var f, g := CylinderPointAt(radius, height, sin, cos, slices), CylinderUvAt(slices);
    assert f(Point(i, 0)) == Vec3(x, 0.0, z) && f(Point(i, 1)) == Vec3(x, height, z);
    PointRowsPair(f, i);
    PointRowsPair(g, i);
  }

  /** The generator's second loop: the triangles (i0, i2, i1) and (i1, i2, i3)
    * of each side quad, with i0 = 2*i. */
  method CylinderSideElements(slices: int) returns (elements: seq<Tri>)
    requires slices >= 1
    ensures elements == CylinderElements(slices)
  {
    elements := [];
    var i := 0;
    while i < slices
      invariant 0 <= i <= slices
      invariant elements == Flipped(GridTris(1, i))
    {
      var i0 := 2 * i;
      var i1 := i0 + 1;
      var i2 := i0 + 2;
      var i3 := i0 + 3;
      CylinderSideStep(i, i0, i1, i2, i3, elements);
      elements := elements + [Tri(i0, i2, i1)];
      elements := elements + [Tri(i1, i2, i3)];
      i := i + 1;
    }
  }

  /** One step of the second loop: the triangles (i0, i2, i1) and (i1, i2, i3)
    * of side quad i, with i0 = 2i, are the reversed triangles of row i of the
    * one-column grid. */
  lemma CylinderSideStep(i: nat, i0: int, i1: int, i2: int, i3: int, elements: seq<Tri>)
    requires i0 == 2 * i && i1 == i0 + 1 && i2 == i0 + 2 && i3 == i0 + 3
    requires elements == Flipped(GridTris(1, i))
    ensures elements + [Tri(i0, i2, i1)] + [Tri(i1, i2, i3)] == Flipped(GridTris(1, i + 1))
  {
    var cells := GridCells(1, i);
    var t0, t1 := Tri(i0, i1, i2), Tri(i1, i3, i2);
    CellTriIndices(1, i, 0);
    ToTrisPush(1, cells, i, 0);
    assert cells + RowCells(i, 0) == cells;
    assert GridTris(1, i + 1) == ToTris(1, cells + RowCells(i, 1));
    assert GridTris(1, i + 1) == GridTris(1, i) + [t0, t1];
    FlippedPush(GridTris(1, i), t0);
    FlippedPush(GridTris(1, i) + [t0], t1);
    assert GridTris(1, i) + [t0] + [t1] == GridTris(1, i) + [t0, t1];
  }

  /** The cylinder has 2*(slices+1) vertices with one UV each and 2*slices
    * triangles; every index is in range, no triangle repeats an index, and the
    * triangulation is consistently oriented. */
  lemma CylinderMeshShape(radius: real, height: real, sin: real -> real, cos: real -> real, slices: int)
    requires slices >= 1
    ensures var m := CylinderMesh(radius, height, sin, cos, slices);
      |m.vertices| == |m.uvs| == 2 * (slices + 1) && |m.elements| == 2 * slices &&
      WellFormed(m) && NonDegenerate(m.elements) && Oriented(m.elements)
  {
    PointRowsLength(CylinderPointAt(radius, height, sin, cos, slices), 1, slices + 1);
    PointRowsLength(CylinderUvAt(slices), 1, slices + 1);
    GridTrisInRange(1, slices);
    GridTrisNonDegenerate(1, slices);
    GridTrisOriented(1, slices);
    FlippedPreserves(GridTris(1, slices), 2 * (slices + 1));
  }

  /** Index 2i holds the bottom point of step i, with UV (i/slices, 0). */
  lemma CylinderBottomAt(radius: real, height: real, sin: real -> real, cos: real -> real, slices: int, i: int)
    requires slices >= 1 && 0 <= i <= slices
    ensures var vs, us := CylinderVertices(radius, height, sin, cos, slices), CylinderUvs(slices);
      2 * i < |vs| && 2 * i < |us| &&
      vs[2 * i] == CylinderPoint(radius, height, sin, cos, slices, Point(i, 0)) &&
      us[2 * i] == Vec2(i as real / slices as real, 0.0)
  {
    assert Corner(1, Point(i, 0)) == 2 * i;
    PointRowsAtCorner(CylinderPointAt(radius, height, sin, cos, slices), 1, slices + 1, Point(i, 0));
    PointRowsAtCorner(CylinderUvAt(slices), 1, slices + 1, Point(i, 0));
  }

  /** Index 2i+1 holds the top point of step i, with UV (i/slices, 1). */
  lemma CylinderTopAt(radius: real, height: real, sin: real -> real, cos: real -> real, slices: int, i: int)
    requires slices >= 1 && 0 <= i <= slices
    ensures var vs, us := CylinderVertices(radius, height, sin, cos, slices), CylinderUvs(slices);
      2 * i + 1 < |vs| && 2 * i + 1 < |us| &&
      vs[2 * i + 1] == CylinderPoint(radius, height, sin, cos, slices, Point(i, 1)) &&
      us[2 * i + 1] == Vec2(i as real / slices as real, 1.0)
  {
    assert Corner(1, Point(i, 1)) == 2 * i + 1;
    PointRowsAtCorner(CylinderPointAt(radius, height, sin, cos, slices), 1, slices + 1, Point(i, 1));
    PointRowsAtCorner(CylinderUvAt(slices), 1, slices + 1, Point(i, 1));
  }

  /** Vertices alternate: index 2i is the bottom point of step i, on y = 0 with
    * UV (i/slices, 0), and index 2i+1 the top point straight above it, on
    * y = height with UV (i/slices, 1). */
  lemma CylinderVertexPair(radius: real, height: real, sin: real -> real, cos: real -> real, slices: int, i: int)
    requires slices >= 1 && 0 <= i <= slices
    ensures var vs, us := CylinderVertices(radius, height, sin, cos, slices), CylinderUvs(slices);
      2 * i + 1 < |vs| && 2 * i + 1 < |us| &&
      vs[2 * i].y == 0.0 && vs[2 * i + 1].y == height &&
      vs[2 * i + 1].x == vs[2 * i].x && vs[2 * i + 1].z == vs[2 * i].z &&
      us[2 * i] == Vec2(i as real / slices as real, 0.0) && us[2 * i + 1] == Vec2(i as real / slices as real, 1.0)
  {
    CylinderBottomAt(radius, height, sin, cos, slices, i);
    CylinderTopAt(radius, height, sin, cos, slices, i);
  }

  /** v lies at distance radius from the cylinder's axis. */
  predicate OnSide(v: Vec3, radius: real)
  {
    v.x * v.x + v.z * v.z == radius * radius
  }

  /** With sin^2 + cos^2 = 1, every vertex lies at distance radius from the
    * axis, between y = 0 and y = height. */
  lemma CylinderOnSide(radius: real, height: real, sin: real -> real, cos: real -> real, slices: int)
    requires slices >= 1
    requires forall a :: sin(a) * sin(a) + cos(a) * cos(a) == 1.0
    ensures forall k :: 0 <= k < |CylinderVertices(radius, height, sin, cos, slices)| ==>
      OnSide(CylinderVertices(radius, height, sin, cos, slices)[k], radius) &&
      (CylinderVertices(radius, height, sin, cos, slices)[k].y == 0.0 ||
       CylinderVertices(radius, height, sin, cos, slices)[k].y == height)
  {
    var f := CylinderPointAt(radius, height, sin, cos, slices);
    var vs := CylinderVertices(radius, height, sin, cos, slices);
    PointRowsLength(f, 1, slices + 1);
    forall k | 0 <= k < |vs|
      ensures OnSide(vs[k], radius) && (vs[k].y == 0.0 || vs[k].y == height)
    {
      PointRowsAt(f, 1, slices + 1, k);
      var p := Decode(1, k);
      assert vs[k] == CylinderPoint(radius, height, sin, cos, slices, p);
    }
  }

  /** With sine and cosine 2 pi-periodic at 0, the last pair of points
    * coincides with the first: the seam is duplicated, with texture u = 0 on
    * the first pair and u = 1 on the last. */
  lemma CylinderSeam(radius: real, height: real, sin: real -> real, cos: real -> real, slices: int, c: int)
    requires slices >= 1
    requires sin(2.0 * Pi) == sin(0.0) && cos(2.0 * Pi) == cos(0.0)
    ensures CylinderPoint(radius, height, sin, cos, slices, Point(slices, c)) ==
            CylinderPoint(radius, height, sin, cos, slices, Point(0, c))
    ensures CylinderUv(slices, Point(0, c)).u == 0.0 && CylinderUv(slices, Point(slices, c)).u == 1.0
  {
    assert slices as real / slices as real * 2.0 * Pi == 2.0 * Pi;
    assert 0 as real / slices as real * 2.0 * Pi == 0.0;
  }
}
