/** The row-major vertex grid and its two-triangles-per-cell triangulation.
  * The ground plane, the sphere and the cylinder all lay their vertices out in
  * rows of nx + 1 points (nx = cells per row) and split each cell into the same
  * two triangles (the sphere and the cylinder with the winding flipped), so the
  * facts about that layout are proved once here. */
module Grid {
  import opened MeshCore

  /** A grid point: `row` is the outer loop counter (iz, i), `col` the inner (ix, j). */
  datatype Point = Point(row: int, col: int)

  /** A triangle given by its three grid points. */
  datatype PointTri = PointTri(a: Point, b: Point, c: Point)

  /** Index of a grid point when every row holds nx + 1 points. */
  function Corner(nx: int, p: Point): int
  {
    p.row * (nx + 1) + p.col
  }

  /** The grid point stored at index k when every row holds nx + 1 points. */
  function Decode(nx: int, k: int): Point
    requires nx >= 0
  {
    Point(k / (nx + 1), k % (nx + 1))
  }

  /** A non-zero multiple of a positive n is at least n away from zero. */
  lemma MultipleOutside(x: int, n: int)
    requires n >= 1
    ensures x >= 1 ==> x * n >= n
    ensures x <= -1 ==> x * n <= -n
  {
  }

  /** Euclidean division undoes `q * n + r` for a remainder below n. */
  lemma DivModUnique(q: int, r: int, n: int)
    requires n >= 1 && 0 <= r < n
    ensures (q * n + r) / n == q && (q * n + r) % n == r
  {
    var k := q * n + r;
    var d, m := k / n, k % n;
    assert k == d * n + m;
    assert (q - d) * n == m - r;
    MultipleOutside(q - d, n);
  }

  /** Decoding the index of an in-row point gives the point back. */
  lemma DecodeCorner(nx: int, p: Point)
    requires nx >= 0 && 0 <= p.col <= nx
    ensures Decode(nx, Corner(nx, p)) == p
  {
    DivModUnique(p.row, p.col, nx + 1);
  }

  /** A point of a grid with nz + 1 rows has an index in range. */
  lemma CornerInGrid(nx: int, nz: int, p: Point)
    requires nx >= 0 && 0 <= p.row <= nz && 0 <= p.col <= nx
    ensures 0 <= Corner(nx, p) < (nx + 1) * (nz + 1)
  {
    assert p.row * (nx + 1) <= nz * (nx + 1);
  }

  // ---------------------------------------------------------------------------
  // Vertex lists filled row by row

  /** f at the first n points of row iz, in column order. */
  function PointRow<T>(f: Point -> T, iz: int, n: nat): (r: seq<T>)
    ensures |r| == n
    ensures forall ix :: 0 <= ix < n ==> r[ix] == f(Point(iz, ix))
  {
    seq(n, ix requires 0 <= ix < n => f(Point(iz, ix)))
  }

  /** f at every point of the first m rows of nx + 1 points, row after row:
    * the list a generator's nested loops build with one push_back per point. */
  function PointRows<T>(f: Point -> T, nx: nat, m: nat): seq<T>
  {
    if m == 0 then [] else PointRows(f, nx, m - 1) + PointRow(f, m - 1, nx + 1)
  }

  /** Pushing the value of the next point of a row extends the row. */
  lemma PointRowPush<T>(f: Point -> T, iz: int, n: nat)
    ensures PointRow(f, iz, n) + [f(Point(iz, n))] == PointRow(f, iz, n + 1)
  {
  }

  /** Pushing the value of the next point of row m onto a list that holds the
    * first m rows and the part of row m before that point extends the part. */
  lemma PointRowsPush<T>(f: Point -> T, nx: nat, m: nat, n: nat, done: seq<T>, v: T)
    requires done == PointRows(f, nx, m) + PointRow(f, m, n) && v == f(Point(m, n))
    ensures done + [v] == PointRows(f, nx, m) + PointRow(f, m, n + 1)
  {
    PointRowPush(f, m, n);
  }

  /** With two points per row, the next row adds point (m, 0) and then point (m, 1). */
  lemma PointRowsPair<T>(f: Point -> T, m: nat)
    ensures PointRows(f, 1, m + 1) == PointRows(f, 1, m) + [f(Point(m, 0)), f(Point(m, 1))]
  {
    assert PointRow(f, m, 2) == [f(Point(m, 0)), f(Point(m, 1))];
  }

  lemma {:induction false} PointRowsLength<T>(f: Point -> T, nx: nat, m: nat)
    ensures |PointRows(f, nx, m)| == m * (nx + 1)
  {
    if m > 0 {
      PointRowsLength(f, nx, m - 1);
    }
  }

  /** The list of m rows holds m * (nx + 1) values, and the value at index k
    * is f at the point stored there, which lies in one of the m rows. */
  lemma {:induction false} PointRowsAt<T>(f: Point -> T, nx: nat, m: nat, k: int)
    requires 0 <= k < m * (nx + 1)
    ensures |PointRows(f, nx, m)| == m * (nx + 1)
    ensures 0 <= Decode(nx, k).row < m && 0 <= Decode(nx, k).col <= nx
    ensures PointRows(f, nx, m)[k] == f(Decode(nx, k))
  {
    var before := (m - 1) * (nx + 1);
    assert m * (nx + 1) == before + (nx + 1);
    PointRowsLength(f, nx, m - 1);
    if k < before {
      PointRowsAt(f, nx, m - 1, k);
    } else {
      DecodeCorner(nx, Point(m - 1, k - before));
    }
  }

  /** Point (iz, ix) of the grid is stored at index iz * (nx + 1) + ix. */
  lemma PointRowsAtCorner<T>(f: Point -> T, nx: nat, m: nat, p: Point)
    requires 0 <= p.row < m && 0 <= p.col <= nx
    ensures 0 <= Corner(nx, p) < |PointRows(f, nx, m)|
    ensures PointRows(f, nx, m)[Corner(nx, p)] == f(p)
  {
    CornerInGrid(nx, m - 1, p);
    DecodeCorner(nx, p);
    PointRowsAt(f, nx, m, Corner(nx, p));
  }

  // ---------------------------------------------------------------------------
  // The triangulation

  predicate HasPointEdge(t: PointTri, u: Point, v: Point)
  {
    (t.a == u && t.b == v) || (t.b == u && t.c == v) || (t.c == u && t.a == v)
  }

  /** The triangles of cell (iz, ix): the first walks i0 -> i1 -> i2, the
    * second i1 -> i3 -> i2, where i0 is the cell's corner (iz, ix), i1 the next
    * point in the row, i2 the point below i0 and i3 the point below i1. */
  function CellPoints(iz: int, ix: int, second: bool): PointTri
  {
    if second then PointTri(Point(iz, ix + 1), Point(iz + 1, ix + 1), Point(iz + 1, ix))
    else PointTri(Point(iz, ix), Point(iz, ix + 1), Point(iz + 1, ix))
  }

  function ToTri(nx: int, t: PointTri): Tri
  {
    Tri(Corner(nx, t.a), Corner(nx, t.b), Corner(nx, t.c))
  }

  /** Every triangle of a list of grid-point triangles as vertex indices. */
  function ToTris(nx: int, ts: seq<PointTri>): (r: seq<Tri>)
    ensures |r| == |ts|
    ensures forall k :: 0 <= k < |ts| ==> r[k] == ToTri(nx, ts[k])
  {
    seq(|ts|, k requires 0 <= k < |ts| => ToTri(nx, ts[k]))
  }

  /** The cell's triangles as the generators write them: with i0 = iz*(nx+1)+ix,
    * i1 = i0+1, i2 = i0+(nx+1) and i3 = i2+1, they are (i0,i1,i2) and (i1,i3,i2). */
  lemma CellTriIndices(nx: int, iz: int, ix: int)
    ensures var i0 := iz * (nx + 1) + ix; var i1, i2 := i0 + 1, i0 + (nx + 1); var i3 := i2 + 1;
      ToTri(nx, CellPoints(iz, ix, false)) == Tri(i0, i1, i2) &&
      ToTri(nx, CellPoints(iz, ix, true)) == Tri(i1, i3, i2)
  {
    assert (iz + 1) * (nx + 1) == iz * (nx + 1) + (nx + 1);
  }

  /** The triangles of the first n cells of row iz, two per cell. */
  function RowCells(iz: int, n: nat): seq<PointTri>
  {
    if n == 0 then []
    else RowCells(iz, n - 1) + [CellPoints(iz, n - 1, false), CellPoints(iz, n - 1, true)]
  }

  /** The triangles of the first m rows of cells, nx cells per row. */
  function GridCells(nx: nat, m: nat): seq<PointTri>
  {
    if m == 0 then [] else GridCells(nx, m - 1) + RowCells(m - 1, nx)
  }

  /** The index triangles of the first m rows of cells: the list a generator's
    * nested triangle loops build. */
  function GridTris(nx: nat, m: nat): seq<Tri>
  {
    ToTris(nx, GridCells(nx, m))
  }

  /** Pushing the two triangles of the next cell extends the index list. */
  lemma ToTrisPush(nx: int, ts: seq<PointTri>, iz: int, ix: nat)
    ensures ToTris(nx, ts + RowCells(iz, ix + 1)) ==
      ToTris(nx, ts + RowCells(iz, ix)) + [ToTri(nx, CellPoints(iz, ix, false)), ToTri(nx, CellPoints(iz, ix, true))]
  {
    assert ts + RowCells(iz, ix + 1) ==
      (ts + RowCells(iz, ix)) + [CellPoints(iz, ix, false), CellPoints(iz, ix, true)];
  }

  /** One step of a triangle loop nest: pushing (i0, i1, i2) and (i1, i3, i2)
    * for cell (iz, ix) extends the triangles of the cells before it by that
    * cell's two triangles. */
  lemma GridCellStep(nx: nat, iz: nat, ix: nat, i0: int, i1: int, i2: int, i3: int, elements: seq<Tri>)
    requires i0 == iz * (nx + 1) + ix && i1 == i0 + 1 && i2 == i0 + (nx + 1) && i3 == i2 + 1
    requires elements == ToTris(nx, GridCells(nx, iz) + RowCells(iz, ix))
    ensures elements + [Tri(i0, i1, i2)] + [Tri(i1, i3, i2)] == ToTris(nx, GridCells(nx, iz) + RowCells(iz, ix + 1))
  {
    CellTriIndices(nx, iz, ix);
    ToTrisPush(nx, GridCells(nx, iz), iz, ix);
    assert elements + [Tri(i0, i1, i2)] + [Tri(i1, i3, i2)] == elements + [Tri(i0, i1, i2), Tri(i1, i3, i2)];
  }

  lemma {:induction false} RowCellsLength(iz: int, n: nat)
    ensures |RowCells(iz, n)| == 2 * n
  {
    if n > 0 {
      RowCellsLength(iz, n - 1);
    }
  }

  lemma {:induction false} RowCellsAt(iz: int, n: nat, p: int)
    requires 0 <= p < 2 * n
    ensures |RowCells(iz, n)| == 2 * n
    ensures RowCells(iz, n)[p] == CellPoints(iz, p / 2, p % 2 == 1)
  {
    RowCellsLength(iz, n - 1);
    if p < 2 * (n - 1) {
      RowCellsAt(iz, n - 1, p);
    }
  }

  /** The grid of m rows of nx cells has 2 * nx * m triangles. */
  lemma {:induction false} GridTrisLength(nx: nat, m: nat)
    ensures |GridTris(nx, m)| == |GridCells(nx, m)| == 2 * nx * m
  {
    if m > 0 {
      GridTrisLength(nx, m - 1);
      RowCellsLength(m - 1, nx);
      assert 2 * nx * m == 2 * nx * (m - 1) + 2 * nx;
    }
  }

  /** Every triangle of the grid belongs to a cell of the grid: triangle p is
    * triangle `second` of cell ix of row iz, and it follows the triangles of the
    * rows before iz and of the cells before ix in row iz. */
  lemma {:induction false} CellOfGridTri(nx: nat, m: nat, p: int) returns (iz: nat, ix: int, second: bool)
    requires 0 <= p < |GridCells(nx, m)|
    ensures iz < m && 0 <= ix < nx
    ensures p == |GridCells(nx, iz)| + 2 * ix + (if second then 1 else 0)
    ensures GridCells(nx, m)[p] == CellPoints(iz, ix, second)
  {
    var before, row := GridCells(nx, m - 1), RowCells(m - 1, nx);
    assert GridCells(nx, m) == before + row;
    RowCellsLength(m - 1, nx);
    if p < |before| {
      iz, ix, second := CellOfGridTri(nx, m - 1, p);
      assert GridCells(nx, m)[p] == before[p];
    } else {
      var r := p - |before|;
      RowCellsAt(m - 1, nx, r);
      assert GridCells(nx, m)[p] == row[r];
      iz, ix, second := m - 1, r / 2, r % 2 == 1;
    }
  }

  /** Triangle `second` of cell (iz, ix) sits in the grid's list right after
    * the triangles of the rows before iz and of the cells before ix in row iz. */
  lemma {:induction false} GridTriOfCell(nx: nat, m: nat, iz: nat, ix: int, second: bool)
    requires iz < m && 0 <= ix < nx
    ensures var p := |GridCells(nx, iz)| + 2 * ix + (if second then 1 else 0);
      p < |GridCells(nx, m)| && GridCells(nx, m)[p] == CellPoints(iz, ix, second)
  {
    var s := if second then 1 else 0;
    var p := |GridCells(nx, iz)| + 2 * ix + s;
    var before, row := GridCells(nx, m - 1), RowCells(m - 1, nx);
    assert GridCells(nx, m) == before + row;
    RowCellsLength(m - 1, nx);
    if iz < m - 1 {
      GridTriOfCell(nx, m - 1, iz, ix, second);
      assert p < |before|;
      assert GridCells(nx, m)[p] == before[p];
    } else {
      DivModUnique(ix, s, 2);
      RowCellsAt(m - 1, nx, 2 * ix + s);
      assert row[2 * ix + s] == CellPoints(iz, ix, second);
      assert GridCells(nx, m)[p] == row[2 * ix + s];
    }
  }

  /** Every index of the grid triangulation names one of the (nx+1)*(nz+1) grid points. */
  lemma {:induction false} GridTrisInRange(nx: nat, nz: nat)
    ensures |GridTris(nx, nz)| == 2 * nx * nz
    ensures IndicesBelow(GridTris(nx, nz), (nx + 1) * (nz + 1))
  {
    GridTrisLength(nx, nz);
    var ts := GridTris(nx, nz);
    forall p | 0 <= p < |ts|
      ensures 0 <= ts[p].a < (nx + 1) * (nz + 1) && 0 <= ts[p].b < (nx + 1) * (nz + 1)
      ensures 0 <= ts[p].c < (nx + 1) * (nz + 1)
    {
      var iz, ix, second := CellOfGridTri(nx, nz, p);
      var t := CellPoints(iz, ix, second);
      CornerInGrid(nx, nz, t.a);
      CornerInGrid(nx, nz, t.b);
      CornerInGrid(nx, nz, t.c);
    }
  }

  /** With at least one cell per row, no triangle of the grid repeats an index. */
  lemma {:induction false} GridTrisNonDegenerate(nx: nat, nz: nat)
    requires nx >= 1
    ensures NonDegenerate(GridTris(nx, nz))
  {
    var ts := GridTris(nx, nz);
    forall p | 0 <= p < |ts|
      ensures ts[p].a != ts[p].b && ts[p].b != ts[p].c && ts[p].c != ts[p].a
    {
      var iz, ix, second := CellOfGridTri(nx, nz, p);
      CellTriIndices(nx, iz, ix);
    }
  }

  /** The two triangles of a cell, stored one after the other, traverse their
    * shared diagonal i1 - i2 in opposite directions: the first from i1 to i2,
    * the second from i2 to i1. */
  lemma CellDiagonalOpposite(nx: nat, nz: nat, iz: nat, ix: int)
    requires iz < nz && 0 <= ix < nx
    ensures var ts, p := GridTris(nx, nz), |GridTris(nx, iz)| + 2 * ix;
      var i1, i2 := iz * (nx + 1) + ix + 1, iz * (nx + 1) + ix + (nx + 1);
      p + 1 < |ts| && HasEdge(ts[p], i1, i2) && HasEdge(ts[p + 1], i2, i1)
  {
    GridTriOfCell(nx, nz, iz, ix, false);
    GridTriOfCell(nx, nz, iz, ix, true);
    CellTriIndices(nx, iz, ix);
  }

  /** A directed edge between grid points determines the cell and the triangle
    * that traverses it. */
  lemma PointEdgeUnique(iz: int, ix: int, s: bool, iz': int, ix': int, s': bool, u: Point, v: Point)
    requires HasPointEdge(CellPoints(iz, ix, s), u, v) && HasPointEdge(CellPoints(iz', ix', s'), u, v)
    ensures iz == iz' && ix == ix' && s == s'
  {
  }

  /** An edge of a grid triangle, read back as grid points, is an edge of the
    * triangle of points. */
  lemma EdgeDecodes(nx: int, t: PointTri, a: int, b: int)
    requires nx >= 0 && HasEdge(ToTri(nx, t), a, b)
    requires 0 <= t.a.col <= nx && 0 <= t.b.col <= nx && 0 <= t.c.col <= nx
    ensures HasPointEdge(t, Decode(nx, a), Decode(nx, b))
  {
    DecodeCorner(nx, t.a);
    DecodeCorner(nx, t.b);
    DecodeCorner(nx, t.c);
  }

  /** The grid triangulation is consistently oriented: no directed edge is
    * traversed by two of its triangles, so every interior edge is walked once
    * in each direction. */
  lemma GridTrisOriented(nx: nat, nz: nat)
    ensures Oriented(GridTris(nx, nz))
  {
    var ts := GridTris(nx, nz);
    forall p, q, a, b | 0 <= p < |ts| && 0 <= q < |ts| && HasEdge(ts[p], a, b) && HasEdge(ts[q], a, b)
      ensures p == q
    {
      var iz, ix, s := CellOfGridTri(nx, nz, p);
      var iz', ix', s' := CellOfGridTri(nx, nz, q);
      EdgeDecodes(nx, CellPoints(iz, ix, s), a, b);
      EdgeDecodes(nx, CellPoints(iz', ix', s'), a, b);
      PointEdgeUnique(iz, ix, s, iz', ix', s', Decode(nx, a), Decode(nx, b));
    }
  }
}
