/** The procedural building: an axis-aligned box centred in X and Z, standing
  * on y = 0 and reaching up to y = height, with eight corners and two
  * triangles on each of its six faces. */
module Building {
  import opened MeshCore

  /** The eight corners in the generator's order: the bottom face (y = 0)
    * starting at (-w/2, -d/2), then the top face (y = height) in the same
    * order, so corners 0-3 are on the floor and 4-7 on the roof. */
  function BoxVertices(width: real, depth: real, height: real): (r: seq<Vec3>)
    ensures |r| == 8
    ensures forall k :: 0 <= k < 8 ==> r[k].y == (if k < 4 then 0.0 else height)
  {
    [ Vec3(-width / 2.0, 0.0, -depth / 2.0), Vec3(width / 2.0, 0.0, -depth / 2.0),
      Vec3(width / 2.0, 0.0, depth / 2.0),   Vec3(-width / 2.0, 0.0, depth / 2.0),
      Vec3(-width / 2.0, height, -depth / 2.0), Vec3(width / 2.0, height, -depth / 2.0),
      Vec3(width / 2.0, height, depth / 2.0),   Vec3(-width / 2.0, height, depth / 2.0) ]
  }

  /** The twelve triangles: front, right, back, left, top and bottom face,
    * two each; each names three distinct corners of the eight. */
  function BoxElements(): (r: seq<Tri>)
    ensures |r| == 12 && IndicesBelow(r, 8) && NonDegenerate(r)
  {
    [ Tri(0, 1, 5), Tri(0, 5, 4),   // front (z = -depth/2)
      Tri(1, 2, 6), Tri(1, 6, 5),   // right (x = width/2)
      Tri(2, 3, 7), Tri(2, 7, 6),   // back (z = depth/2)
      Tri(3, 0, 4), Tri(3, 4, 7),   // left (x = -width/2)
      Tri(4, 5, 6), Tri(4, 6, 7),   // top (y = height)
      Tri(0, 2, 1), Tri(0, 3, 2) ]  // bottom (y = 0)
  }

  /** The box's texture coordinates: (0, 0) for each of the eight corners, so
    * the box is textured with a single texel. */
  function BoxUvs(): seq<Vec2>
  {
    seq(8, k => Vec2(0.0, 0.0))
  }

  /** The box mesh the generator registers. */
  function BoxMesh(width: real, depth: real, height: real): Mesh
  {
    Mesh(BoxVertices(width, depth, height), BoxElements(), BoxUvs())
  }

  /** The texture-coordinate loop: eight pushes of (0, 0). */
  method BuildingUvs() returns (uvs: seq<Vec2>)
    ensures uvs == BoxUvs()
  {
    uvs := [];
    var i := 0;
    while i < 8
      invariant 0 <= i <= 8 && |uvs| == i
      invariant forall k :: 0 <= k < i ==> uvs[k] == Vec2(0.0, 0.0)
    {
      uvs := uvs + [Vec2(0.0, 0.0)];
      i := i + 1;
    }
  }

  /** The box mesh has 8 vertices, 12 triangles and 8 UVs, all (0, 0); every
    * index names one of the 8 corners, no triangle repeats a corner, and the
    * mesh is well formed. */
  lemma BoxShape(width: real, depth: real, height: real)
    ensures var m := BoxMesh(width, depth, height);
      |m.vertices| == 8 && |m.elements| == 12 && |m.uvs| == 8 &&
      (forall k :: 0 <= k < |m.uvs| ==> m.uvs[k] == Vec2(0.0, 0.0)) &&
      IndicesBelow(m.elements, 8) && NonDegenerate(m.elements) && WellFormed(m)
  {
  }

  /** Bottom corner k lies on y = 0 and top corner k + 4 straight above it on
    * y = height. */
  lemma BoxCornerAbove(width: real, depth: real, height: real, k: int)
    requires 0 <= k < 4
    ensures var vs := BoxVertices(width, depth, height);
      vs[k].y == 0.0 && vs[k + 4].y == height && vs[k + 4].x == vs[k].x && vs[k + 4].z == vs[k].z
  {
  }

  /** Every corner is width/2 from the box's axis in X and depth/2 in Z. */
  lemma BoxCornerOffsets(width: real, depth: real, height: real, k: int)
    requires 0 <= k < 8
    ensures var v := BoxVertices(width, depth, height)[k];
      (v.x == width / 2.0 || v.x == -width / 2.0) && (v.z == depth / 2.0 || v.z == -depth / 2.0)
  {
  }

  /** The triangle of the box that walks the directed edge a -> b, or -1 when
    * no triangle does. */
  function BoxEdgeOwner(a: int, b: int): int
  {
    match a
    case 0 => (match b case 1 => 0 case 2 => 10 case 3 => 11 case 4 => 6 case 5 => 1 case _ => -1)
    case 1 => (match b case 0 => 10 case 2 => 2 case 5 => 0 case 6 => 3 case _ => -1)
    case 2 => (match b case 0 => 11 case 1 => 10 case 3 => 4 case 6 => 2 case 7 => 5 case _ => -1)
    case 3 => (match b case 0 => 6 case 2 => 11 case 4 => 7 case 7 => 4 case _ => -1)
    case 4 => (match b case 0 => 1 case 3 => 6 case 5 => 8 case 6 => 9 case 7 => 7 case _ => -1)
    case 5 => (match b case 0 => 0 case 1 => 3 case 4 => 1 case 6 => 8 case _ => -1)
    case 6 => (match b case 1 => 2 case 2 => 5 case 4 => 8 case 5 => 3 case 7 => 9 case _ => -1)
    case 7 => (match b case 2 => 4 case 3 => 7 case 4 => 9 case 6 => 5 case _ => -1)
    case _ => -1
  }

  /** Each directed edge of a box triangle is walked by that triangle alone,
    * and its reverse is walked by another triangle of the box. */
  lemma BoxEdgeOwnerAt(p: int, a: int, b: int)
    requires 0 <= p < |BoxElements()| && HasEdge(BoxElements()[p], a, b)
    ensures BoxEdgeOwner(a, b) == p
    ensures 0 <= BoxEdgeOwner(b, a) < |BoxElements()| && HasEdge(BoxElements()[BoxEdgeOwner(b, a)], b, a)
  {
  }

  /** The box is watertight: the reverse of every directed edge is walked by
    * another triangle, no directed edge is walked twice, and no triangle
    * repeats a corner, so every edge is shared by exactly two triangles with
    * opposite windings. */
  lemma BoxWatertight()
    ensures Closed(BoxElements()) && Oriented(BoxElements()) && NonDegenerate(BoxElements())
  {
    var ts := BoxElements();
    forall p, a, b | 0 <= p < |ts| && HasEdge(ts[p], a, b)
      ensures exists q :: 0 <= q < |ts| && HasEdge(ts[q], b, a)
    {
      BoxEdgeOwnerAt(p, a, b);
    }
    forall p, q, a, b | 0 <= p < |ts| && 0 <= q < |ts| && HasEdge(ts[p], a, b) && HasEdge(ts[q], a, b)
      ensures p == q
    {
      BoxEdgeOwnerAt(p, a, b);
      BoxEdgeOwnerAt(q, a, b);
    }
  }

  /** Every edge of the box is shared by exactly two triangles: the reverse of
    * each directed edge of a triangle is walked by exactly one other triangle. */
  lemma BoxEdgesShared(p: int, a: int, b: int)
    requires 0 <= p < |BoxElements()| && HasEdge(BoxElements()[p], a, b)
    ensures exists q :: 0 <= q < |BoxElements()| && q != p && HasEdge(BoxElements()[q], b, a)
    ensures forall q, q' ::
      0 <= q < |BoxElements()| && 0 <= q' < |BoxElements()| &&
      HasEdge(BoxElements()[q], b, a) && HasEdge(BoxElements()[q'], b, a)
      ==> q == q'
  {
    BoxWatertight();
    ReverseEdgeUnique(BoxElements(), p, a, b);
  }

  /** The box's centre: halfway up its axis. */
  function BoxCentre(height: real): Vec3
  {
    Vec3(0.0, height / 2.0, 0.0)
  }

  /** Triangle p's right-hand normal, dotted with the offset of the triangle
    * from the box's centre, gives -(width * depth * height) / 2. */
  lemma BoxNormalInward(width: real, depth: real, height: real, p: int)
    requires 0 <= p < |BoxElements()|
    ensures var vs, t := BoxVertices(width, depth, height), BoxElements()[p];
      Dot(Normal(vs[t.a], vs[t.b], vs[t.c]), Sub(vs[t.a], BoxCentre(height))) == -(width * depth * height) / 2.0
  {
  }

  /** Every triangle's right-hand normal, dotted with the offset of the
    * triangle from the box's centre, gives -(width * depth * height) / 2: for a
    * box of positive size every normal points into the box, so each face winds
    * clockwise seen from outside. */
  lemma BoxNormalsInward(width: real, depth: real, height: real)
    ensures var vs, ts := BoxVertices(width, depth, height), BoxElements();
      forall p :: 0 <= p < |ts| ==>
        Dot(Normal(vs[ts[p].a], vs[ts[p].b], vs[ts[p].c]), Sub(vs[ts[p].a], BoxCentre(height))) ==
          -(width * depth * height) / 2.0
  {
    forall p | 0 <= p < |BoxElements()| {
      BoxNormalInward(width, depth, height, p);
    }
  }
}
