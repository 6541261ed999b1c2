/** Values shared by every generator: positions, texture coordinates, index
  * triples, and the topological predicates stated about triangle lists. */
module MeshCore {

  /** A vertex position; the source's `float` coordinates idealised as reals. */
  datatype Vec3 = Vec3(x: real, y: real, z: real)

  /** A texture coordinate (u, v). */
  datatype Vec2 = Vec2(u: real, v: real)

  /** One triangle as three vertex indices; the order is the winding. */
  datatype Tri = Tri(a: int, b: int, c: int)

  /** The `M_PI` the generators use, as a real. */
  const Pi: real := 3.14159265358979323846

  function Sub(p: Vec3, q: Vec3): Vec3
  {
    Vec3(p.x - q.x, p.y - q.y, p.z - q.z)
  }

  function Cross(u: Vec3, v: Vec3): Vec3
  {
    Vec3(u.y * v.z - u.z * v.y, u.z * v.x - u.x * v.z, u.x * v.y - u.y * v.x)
  }

  function Dot(u: Vec3, v: Vec3): real
  {
    u.x * v.x + u.y * v.y + u.z * v.z
  }

  /** The right-hand normal of the triangle p0 -> p1 -> p2 (not normalised):
    * it points towards a viewer who sees the triangle counter-clockwise. */
  function Normal(p0: Vec3, p1: Vec3, p2: Vec3): Vec3
  {
    Cross(Sub(p1, p0), Sub(p2, p0))
  }

  /** A triangle mesh as the viewer stores it. */
  datatype Mesh = Mesh(vertices: seq<Vec3>, elements: seq<Tri>, uvs: seq<Vec2>)

  /** The triangle traverses the directed edge a -> b. */
  predicate HasEdge(t: Tri, a: int, b: int)
  {
    (t.a == a && t.b == b) || (t.b == a && t.c == b) || (t.c == a && t.a == b)
  }

  /** Every index of every triangle names one of the first n vertices. */
  predicate IndicesBelow(ts: seq<Tri>, n: int)
  {
    forall k :: 0 <= k < |ts| ==>
      0 <= ts[k].a < n && 0 <= ts[k].b < n && 0 <= ts[k].c < n
  }

  /** No triangle repeats an index. */
  predicate NonDegenerate(ts: seq<Tri>)
  {
    forall k :: 0 <= k < |ts| ==>
      ts[k].a != ts[k].b && ts[k].b != ts[k].c && ts[k].c != ts[k].a
  }

  /** Consistent orientation: no directed edge is traversed by two different
    * triangles, so an edge shared by two triangles is walked in opposite
    * directions by them. */
  ghost predicate Oriented(ts: seq<Tri>)
  {
    forall p, q, a, b ::
      0 <= p < |ts| && 0 <= q < |ts| && p != q && HasEdge(ts[p], a, b) ==> !HasEdge(ts[q], a, b)
  }

  /** Closed surface: the reverse of every directed edge is traversed by some triangle. */
  ghost predicate Closed(ts: seq<Tri>)
  {
    forall p, a, b :: 0 <= p < |ts| && HasEdge(ts[p], a, b) ==>
      exists q :: 0 <= q < |ts| && HasEdge(ts[q], b, a)
  }

  /** The well-formedness a mesh owes the viewer: indices in range, and either
    * no texture coordinates or one per vertex. */
  predicate WellFormed(m: Mesh)
  {
    IndicesBelow(m.elements, |m.vertices|) && (|m.uvs| == 0 || |m.uvs| == |m.vertices|)
  }

  /** The same triangle with the opposite winding. */
  function Flip(t: Tri): (r: Tri)
    ensures forall a, b :: HasEdge(r, a, b) <==> HasEdge(t, b, a)
  {
    Tri(t.a, t.c, t.b)
  }

  /** Every triangle of the list flipped. */
  function Flipped(ts: seq<Tri>): (r: seq<Tri>)
    ensures |r| == |ts|
    ensures forall k :: 0 <= k < |ts| ==> r[k] == Flip(ts[k])
  {
    seq(|ts|, k requires 0 <= k < |ts| => Flip(ts[k]))
  }

  /** Flipping a list extended by one triangle extends the flipped list by
    * the flipped triangle. */
  lemma FlippedPush(ts: seq<Tri>, t: Tri)
    ensures Flipped(ts + [t]) == Flipped(ts) + [Flip(t)]
  {
    assert Flipped(ts + [t])[|ts|] == Flip(t);
  }

  /** Flipping every triangle keeps the index range, non-degeneracy and
    * consistent orientation of a triangle list. */
  lemma FlippedPreserves(ts: seq<Tri>, n: int)
    ensures IndicesBelow(ts, n) ==> IndicesBelow(Flipped(ts), n)
    ensures NonDegenerate(ts) ==> NonDegenerate(Flipped(ts))
    ensures Oriented(ts) ==> Oriented(Flipped(ts))
  {
    var fs := Flipped(ts);
    if Oriented(ts) {
      forall p, q, a, b | 0 <= p < |fs| && 0 <= q < |fs| && p != q && HasEdge(fs[p], a, b)
        ensures !HasEdge(fs[q], a, b)
      {
        assert HasEdge(ts[p], b, a);
      }
    }
  }

  /** In a non-degenerate, oriented and closed triangle list, the reverse of each
    * directed edge of triangle p is traversed by exactly one triangle, and that
    * triangle is not p. */
  lemma ReverseEdgeUnique(ts: seq<Tri>, p: int, a: int, b: int)
    requires NonDegenerate(ts) && Oriented(ts) && Closed(ts)
    requires 0 <= p < |ts| && HasEdge(ts[p], a, b)
    ensures exists q :: 0 <= q < |ts| && q != p && HasEdge(ts[q], b, a)
    ensures forall q, q' :: 0 <= q < |ts| && 0 <= q' < |ts| && HasEdge(ts[q], b, a) && HasEdge(ts[q'], b, a) ==> q == q'
  {
    var q :| 0 <= q < |ts| && HasEdge(ts[q], b, a);
    assert ts[q].a != ts[q].b && ts[q].b != ts[q].c && ts[q].c != ts[q].a;
    assert q != p;
  }
}
