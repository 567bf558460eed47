/** The `patchDef2` block written for each displaced side: the size header, the choice of
    the four corners around the start position, the grid of points filled row by row, and
    the rows of ` ( x y z u v )` cells. Float arithmetic is abstracted into `PatchMath`. */
module Patches {
  import opened Wrappers
  import opened Text
  import opened Vectors

  /** A displacement block: `dispinfo.normals`, `distances` and `alphas` stay `None` (null)
      when their sub-block is missing. */
  datatype DispInfo<N> = DispInfo(
    startposition: Vec3<N>,
    power: int,
    normals: Option<seq<seq<Vec3<N>>>>,
    distances: Option<seq<seq<N>>>,
    alphas: Option<seq<seq<N>>>)

  /** A side as the brush loop records it: `points` is null when the plane did not give
      three vectors, and `dispinfo` is only attached to a side whose plane did. */
  datatype Side<N> = Side(
    points: Option<seq<Vec3<N>>>,
    dispinfo: Option<DispInfo<N>>,
    uAxis: Axis<N>,
    vAxis: Axis<N>,
    material: string)

  /** The four corners `a`, `b`, `c`, `d` of a patch. */
  datatype Corners<N> = Corners(a: Vec3<N>, b: Vec3<N>, c: Vec3<N>, d: Vec3<N>)

  /** The float operations of the patch code, which this model does not compute. */
  datatype PatchMath<!N> = PatchMath(
    closest: (Vec3<N>, seq<Vec3<N>>) -> int,                         // Vector3.closestIndex
    place: (Corners<N>, nat, nat, nat, nat, Vec3<N>, N) -> Vec3<N>,  // the point of row i, column j of an R x C grid
    texcoord: (Vec3<N>, Axis<N>) -> N,                              // dot product, scale and shift over 512 texels
    flip: N -> N,                                                   // v := -v + 512
    format: N -> string,                                            // ToString("0.###")
    show: N -> string)                                              // default ToString()

  // ---------------------------------------------------------------------------
  // Corners
  // ---------------------------------------------------------------------------

  /** `MathExtensions.FloorMod`, by its mathematical contract: the remainder of floored
      division, which for a positive modulus lies in `[0, m)`, is `x` itself there, and is
      periodic in `x` with period `m` (`FloorModPeriodic`). */
  function FloorMod(x: int, m: int): (r: int)
    requires m > 0
    ensures 0 <= r < m
    ensures 0 <= x < m ==> r == x
    decreases if x < 0 then 1 else 0, if x < 0 then -x else x
  {
    if x < 0 then FloorMod(x + m, m)
    else if x < m then x
    else FloorMod(x - m, m)
  }

  /** Adding the modulus does not change the remainder. */
  lemma {:induction false} FloorModPeriodic(x: int, m: int)
    requires m > 0
    ensures FloorMod(x + m, m) == FloorMod(x, m)
    decreases if x < 0 then 1 else 0, if x < 0 then -x else x
  {
    if x < 0 {
    } else if x < m {
    } else {
      FloorModPeriodic(x - m, m);
    }
  }

  /** The indices of `a`, `b`, `c` and `d` for start index `s`. */
  function CornerIndices(s: int): (ks: seq<int>)
    ensures |ks| == 4 && ks[2] == s
  {
    [FloorMod(s - 2, 4), FloorMod(s - 1, 4), s, FloorMod(s + 1, 4)]
  }

  /** The four index sequences, one per start index. */
  lemma CornerIndicesTable(s: int)
    requires 0 <= s < 4
    ensures s == 0 ==> CornerIndices(s) == [2, 3, 0, 1]
    ensures s == 1 ==> CornerIndices(s) == [3, 0, 1, 2]
    ensures s == 2 ==> CornerIndices(s) == [0, 1, 2, 3]
    ensures s == 3 ==> CornerIndices(s) == [1, 2, 3, 0]
  {
    assert FloorMod(-2, 4) == 2 && FloorMod(-1, 4) == 3;
    assert FloorMod(4, 4) == 0;
  }

  /** For a start index among the four corners, `a`, `b`, `c`, `d` are the four corners,
      each once. */
  lemma CornerIndicesArePermutation(s: int)
    requires 0 <= s < 4
    ensures multiset(CornerIndices(s)) == multiset{0, 1, 2, 3}
  {
    CornerIndicesTable(s);
  }

  /** `a`, `b`, `c`, `d` are consecutive corners going around the face. */
  lemma CornerIndicesConsecutive(s: int)
    requires 0 <= s < 4
    ensures forall k :: 0 <= k < 3 ==> CornerIndices(s)[k + 1] == FloorMod(CornerIndices(s)[k] + 1, 4)
  {
    CornerIndicesTable(s);
  }

  /** The corners read from `side.points`; an index outside the array throws. */
  function SelectCorners<N>(points: seq<Vec3<N>>, s: int): (r: Option<Corners<N>>)
    ensures r.Some? <==> 0 <= s < |points| && forall k :: 0 <= k < 4 ==> CornerIndices(s)[k] < |points|
    ensures r.Some? ==> r.value == Corners(points[CornerIndices(s)[0]], points[CornerIndices(s)[1]], points[s], points[CornerIndices(s)[3]])
  {
    var ks := CornerIndices(s);
    if 0 <= s < |points| && ks[0] < |points| && ks[1] < |points| && ks[3] < |points| then
      Some(Corners(points[ks[0]], points[ks[1]], points[s], points[ks[3]]))
    else None
  }

  /** `p` rotated left by `k`. */
  function Rotate<T>(p: seq<T>, k: nat): seq<T>
    requires k <= |p|
  {
    p[k..] + p[..k]
  }

  lemma RotateKeepsElements<T>(p: seq<T>, k: nat)
    requires k <= |p|
    ensures multiset(Rotate(p, k)) == multiset(p)
  {
    assert p == p[..k] + p[k..];
  }

  /** On a four-point face any start index among the points gives the four points as
      corners, in their cyclic order starting two before the start. */
  lemma CornersOfQuad<N>(points: seq<Vec3<N>>, s: int)
    requires |points| == 4 && 0 <= s < 4
    ensures SelectCorners(points, s).Some?
    ensures var q := SelectCorners(points, s).value; [q.a, q.b, q.c, q.d] == Rotate(points, FloorMod(s - 2, 4))
  {
    CornerIndicesTable(s);
    var k := FloorMod(s - 2, 4);
    var r := Rotate(points, k);
    if s == 0 {
      assert r == [points[2], points[3], points[0], points[1]];
    } else if s == 1 {
      assert r == [points[3], points[0], points[1], points[2]];
    } else if s == 2 {
      assert r == [points[0], points[1], points[2], points[3]];
    } else {
      assert r == [points[1], points[2], points[3], points[0]];
    }
  }

  /** So each of the four points is a corner exactly once. */
  lemma CornersOfQuadPermute<N>(points: seq<Vec3<N>>, s: int)
    requires |points| == 4 && 0 <= s < 4
    ensures SelectCorners(points, s).Some?
    ensures var q := SelectCorners(points, s).value; multiset{q.a, q.b, q.c, q.d} == multiset(points)
  {
    CornersOfQuad(points, s);
    var q := SelectCorners(points, s).value;
    RotateKeepsElements(points, FloorMod(s - 2, 4));
    assert multiset{q.a, q.b, q.c, q.d} == multiset([q.a, q.b, q.c, q.d]);
  }

  // ---------------------------------------------------------------------------
  // Header
  // ---------------------------------------------------------------------------

  /** The size fields `R C 0 0 0 )` after `( ` in the header. */
  function SizeField(rows: nat, columns: nat): string {
    NatToString(rows) + " " + NatToString(columns) + " 0 0 0 )"
  }

  /** The header: `patchDef2`, the material and the size `normals.Length` by
      `normals[0].Length`. */
  function PatchHeader(material: string, rows: nat, columns: nat): string {
    "\n{\npatchDef2\n{" + "\n" + material + "\n( " + SizeField(rows, columns) + "\n("
  }

  /** Reads the two sizes back from size fields. */
  function ReadSize(t: string): (nat, nat) {
    var n := Span(t, IsDigit);
    var rest := if n < |t| then t[n + 1..] else [];
    SpanPrefix(t, IsDigit);
    SpanPrefix(rest, IsDigit);
    (DecimalValue(t[..n]), DecimalValue(rest[..Span(rest, IsDigit)]))
  }

  predicate AllDigits(s: string) {
    forall i :: 0 <= i < |s| ==> IsDigit(s[i])
  }

  /** Two digit runs separated by a space are read back as their values. */
  lemma {:induction false} ReadSizeOfRuns(a: string, b: string, u: string)
    requires AllDigits(a) && AllDigits(b) && u != [] && !IsDigit(u[0])
    ensures ReadSize(a + " " + b + u) == (DecimalValue(a), DecimalValue(b))
  {
    var t := a + " " + b + u;
    assert t == a + (" " + b + u);
    SpanOfConcat(a, " " + b + u, IsDigit);
    assert t[..|a|] == a;
    assert t[|a| + 1..] == b + u;
    SpanOfConcat(b, u, IsDigit);
    assert (b + u)[..|b|] == b;
  }

  /** The header states the grid size: reading the size fields back gives the row and
      column counts. */
  lemma {:induction false} SizeFieldRoundTrip(rows: nat, columns: nat)
    ensures ReadSize(SizeField(rows, columns)) == (rows, columns)
  {
    ReadSizeOfRuns(NatToString(rows), NatToString(columns), " 0 0 0 )");
    DecimalRoundTrip(rows);
    DecimalRoundTrip(columns);
  }

  // ---------------------------------------------------------------------------
  // Grid
  // ---------------------------------------------------------------------------

  /** Cell `(i, j)` reads `normals[j][i]` and `distances[j][i]` (the arrays are indexed
      column first). */
  predicate CellInRange<N>(normals: seq<seq<Vec3<N>>>, distances: seq<seq<N>>, i: nat, j: nat) {
    j < |normals| && i < |normals[j]| && j < |distances| && i < |distances[j]|
  }

  /** Every cell of the `rows` by `columns` grid is in range. */
  predicate Covered<N>(normals: seq<seq<Vec3<N>>>, distances: seq<seq<N>>, rows: nat, columns: nat) {
    forall i: nat, j: nat :: i < rows && j < columns ==> CellInRange(normals, distances, i, j)
  }

  /** A square grid whose distances have the shape of its normals is covered: the
      transposed indexing never leaves the arrays. */
  lemma SquareGridCovered<N>(normals: seq<seq<Vec3<N>>>, distances: seq<seq<N>>)
    requires |normals| > 0 && |distances| == |normals|
    requires forall j :: 0 <= j < |normals| ==> |normals[j]| == |normals| && |distances[j]| == |normals|
    ensures Covered(normals, distances, |normals|, |normals[0]|)
  {
  }

  /** A covered grid with rows and columns needs at least as many normal rows as columns,
      each at least as long as the grid has rows. */
  lemma CoveredNeedsTranspose<N>(normals: seq<seq<Vec3<N>>>, distances: seq<seq<N>>, rows: nat, columns: nat)
    requires rows > 0 && columns > 0 && Covered(normals, distances, rows, columns)
    ensures columns <= |normals| && columns <= |distances|
    ensures forall j :: 0 <= j < columns ==> rows <= |normals[j]| && rows <= |distances[j]|
  {
    assert CellInRange(normals, distances, 0, columns - 1);
    forall j | 0 <= j < columns ensures rows <= |normals[j]| && rows <= |distances[j]| {
      assert CellInRange(normals, distances, rows - 1, j);
    }
  }

  /** The point of cell `(i, j)`: the corner interpolation plus the displacement along the
      normal. */
  function GridPoint<N>(pm: PatchMath<N>, q: Corners<N>, normals: seq<seq<Vec3<N>>>, distances: seq<seq<N>>,
                        rows: nat, columns: nat, i: nat, j: nat): Vec3<N>
    requires CellInRange(normals, distances, i, j)
  {
    pm.place(q, i, j, rows, columns, normals[j][i], distances[j][i])
  }

  /** The texture coordinate of a point: `u` along the U axis, `v` along the V axis and
      flipped. */
  function Texel<N>(pm: PatchMath<N>, side: Side<N>, p: Vec3<N>): (N, N) {
    (pm.texcoord(p, side.uAxis), pm.flip(pm.texcoord(p, side.vAxis)))
  }

  /** Every cell of row `i` is in range. */
  predicate RowInRange<N>(normals: seq<seq<Vec3<N>>>, distances: seq<seq<N>>, columns: nat, i: nat) {
    forall j :: 0 <= j < columns ==> CellInRange(normals, distances, i, j)
  }

  /** The points of row `i`. */
  function RowPoints<N>(pm: PatchMath<N>, q: Corners<N>, normals: seq<seq<Vec3<N>>>, distances: seq<seq<N>>,
                        rows: nat, columns: nat, i: nat): (ps: seq<Vec3<N>>)
    requires RowInRange(normals, distances, columns, i)
    ensures |ps| == columns
  {
    seq(columns, j requires 0 <= j < columns => GridPoint(pm, q, normals, distances, rows, columns, i, j))
  }

  /** The texels of a row of points. */
  function RowTexels<N>(pm: PatchMath<N>, side: Side<N>, ps: seq<Vec3<N>>): (uvs: seq<(N, N)>)
    ensures |uvs| == |ps|
  {
    seq(|ps|, j requires 0 <= j < |ps| => Texel(pm, side, ps[j]))
  }

  /** Row `i` of a two-dimensional array. */
  function RowOf<T>(a: array2<T>, i: nat): (r: seq<T>)
    reads a
    requires i < a.Length0
    ensures |r| == a.Length1 && forall j :: 0 <= j < a.Length1 ==> r[j] == a[i, j]
  {
    RowPrefix(a, i, a.Length1)
  }

  /** The first `n` cells of row `i` of a two-dimensional array. */
  function RowPrefix<T>(a: array2<T>, i: nat, n: nat): (r: seq<T>)
    reads a
    requires i < a.Length0 && n <= a.Length1
    ensures |r| == n && forall j :: 0 <= j < n ==> r[j] == a[i, j]
  {
    if n == 0 then [] else RowPrefix(a, i, n - 1) + [a[i, n - 1]]
  }

  /** Row `i` of the arrays holds the row's points and their texels. */
  ghost predicate RowFilled<N>(pm: PatchMath<N>, side: Side<N>, q: Corners<N>, normals: seq<seq<Vec3<N>>>, distances: seq<seq<N>>,
                               rows: nat, columns: nat, points: array2<Vec3<N>>, uvPoints: array2<(N, N)>, i: nat)
    reads points, uvPoints
    requires points.Length0 == rows && points.Length1 == columns
    requires uvPoints.Length0 == rows && uvPoints.Length1 == columns
  {
    i < rows && RowInRange(normals, distances, columns, i) &&
    RowOf(points, i) == RowPoints(pm, q, normals, distances, rows, columns, i) &&
    RowOf(uvPoints, i) == RowTexels(pm, side, RowPoints(pm, q, normals, distances, rows, columns, i))
  }

  /** Every row of the grid is filled. */
  ghost predicate GridFilled<N>(pm: PatchMath<N>, side: Side<N>, q: Corners<N>, normals: seq<seq<Vec3<N>>>, distances: seq<seq<N>>,
                                rows: nat, columns: nat, points: array2<Vec3<N>>, uvPoints: array2<(N, N)>)
    reads points, uvPoints
    requires points.Length0 == rows && points.Length1 == columns
    requires uvPoints.Length0 == rows && uvPoints.Length1 == columns
  {
    forall i :: 0 <= i < rows ==> RowFilled(pm, side, q, normals, distances, rows, columns, points, uvPoints, i)
  }

  /** The inner `j` loop for row `i`; `false` where a cell is out of range. */
  method FillRow<N>(pm: PatchMath<N>, side: Side<N>, q: Corners<N>, normals: seq<seq<Vec3<N>>>, distances: seq<seq<N>>,
                    rows: nat, columns: nat, points: array2<Vec3<N>>, uvPoints: array2<(N, N)>, i: nat)
    returns (ok: bool)
    requires points.Length0 == rows && points.Length1 == columns
    requires uvPoints.Length0 == rows && uvPoints.Length1 == columns
    requires i < rows
    modifies points, uvPoints
    ensures ok <==> RowInRange(normals, distances, columns, i)
    ensures ok ==> RowFilled(pm, side, q, normals, distances, rows, columns, points, uvPoints, i)
    ensures forall i', j :: 0 <= i' < rows && i' != i && 0 <= j < columns ==>
      points[i', j] == old(points[i', j]) && uvPoints[i', j] == old(uvPoints[i', j])
  {
    var j := 0;
    while j < columns
      invariant 0 <= j <= columns
      invariant forall j' :: 0 <= j' < j ==>
        CellInRange(normals, distances, i, j') &&
        points[i, j'] == GridPoint(pm, q, normals, distances, rows, columns, i, j') &&
        uvPoints[i, j'] == Texel(pm, side, points[i, j'])
      invariant forall i', j' :: 0 <= i' < rows && i' != i && 0 <= j' < columns ==>
        points[i', j'] == old(points[i', j']) && uvPoints[i', j'] == old(uvPoints[i', j'])
    {
      if !CellInRange(normals, distances, i, j) {
        return false;
      }
      var p := pm.place(q, i, j, rows, columns, normals[j][i], distances[j][i]);
      points[i, j] := p;
      uvPoints[i, j] := Texel(pm, side, p);
      j := j + 1;
    }
    ghost var ps := RowPoints(pm, q, normals, distances, rows, columns, i);
    assert RowOf(points, i) == ps;
    assert RowOf(uvPoints, i) == RowTexels(pm, side, ps);
    return true;
  }

  /** The `points` and `uvPoints` loops: a grid of `rows` by `columns` cells, or null
      (a thrown `IndexOutOfRangeException`) when a cell is out of range. */
  method FillGrid<N>(pm: PatchMath<N>, side: Side<N>, q: Corners<N>, normals: seq<seq<Vec3<N>>>, distances: seq<seq<N>>,
                     rows: nat, columns: nat)
    returns (points: array2?<Vec3<N>>, uvPoints: array2?<(N, N)>)
    ensures points == null <==> !Covered(normals, distances, rows, columns)
    ensures points != null ==> uvPoints != null && fresh(points) && fresh(uvPoints)
    ensures points != null ==> points.Length0 == rows && points.Length1 == columns
    ensures points != null ==> uvPoints.Length0 == rows && uvPoints.Length1 == columns
    ensures points != null ==> GridFilled(pm, side, q, normals, distances, rows, columns, points, uvPoints)
  {
    var ps := new Vec3<N>[rows, columns]((i, j) => q.c);
    var uvs := new (N, N)[rows, columns]((i, j) => Texel(pm, side, q.c));
    var i := 0;
    while i < rows
      invariant 0 <= i <= rows
      invariant forall i' :: 0 <= i' < i ==> RowFilled(pm, side, q, normals, distances, rows, columns, ps, uvs, i')
    {
      label BeforeRow:
      var ok := FillRow(pm, side, q, normals, distances, rows, columns, ps, uvs, i);
      if !ok {
        return null, null;
      }
      forall i' | 0 <= i' < i ensures RowFilled(pm, side, q, normals, distances, rows, columns, ps, uvs, i') {
        assert old@BeforeRow(RowFilled(pm, side, q, normals, distances, rows, columns, ps, uvs, i'));
        assert RowOf(ps, i') == old@BeforeRow(RowOf(ps, i'));
        assert RowOf(uvs, i') == old@BeforeRow(RowOf(uvs, i'));
      }
      i := i + 1;
    }
    forall i': nat, j: nat | i' < rows && j < columns ensures CellInRange(normals, distances, i', j) {
      assert RowFilled(pm, side, q, normals, distances, rows, columns, ps, uvs, i');
    }
    return ps, uvs;
  }

  // ---------------------------------------------------------------------------
  // Rows
  // ---------------------------------------------------------------------------

  /** One cell: ` ( x y z u v )`, the coordinates as `0.###` and the texel in full. */
  function CellText<N>(pm: PatchMath<N>, p: Vec3<N>, uv: (N, N)): string {
    " ( " + pm.format(p.x) + " " + pm.format(p.y) + " " + pm.format(p.z) + " " + pm.show(uv.0) + " " + pm.show(uv.1) + " )"
  }

  /** The first `j` cells of a row given by its points and texels. */
  function CellsOf<N>(pm: PatchMath<N>, ps: seq<Vec3<N>>, uvs: seq<(N, N)>, j: nat): string
    requires j <= |ps| && j <= |uvs|
  {
    if j == 0 then "" else CellsOf(pm, ps, uvs, j - 1) + CellText(pm, ps[j - 1], uvs[j - 1])
  }

  /** One row: `\n(`, its cells, ` )`. */
  function RowText<N>(pm: PatchMath<N>, ps: seq<Vec3<N>>, uvs: seq<(N, N)>): string
    requires |ps| == |uvs|
  {
    "\n(" + CellsOf(pm, ps, uvs, |ps|) + " )"
  }

  /** The first `i` rows of the grid. */
  function RowsTo<N>(pm: PatchMath<N>, side: Side<N>, q: Corners<N>, normals: seq<seq<Vec3<N>>>, distances: seq<seq<N>>,
                     rows: nat, columns: nat, i: nat): string
    requires Covered(normals, distances, rows, columns) && i <= rows
  {
    if i == 0 then ""
    else
      var ps := RowPoints(pm, q, normals, distances, rows, columns, i - 1);
      RowsTo(pm, side, q, normals, distances, rows, columns, i - 1) + RowText(pm, ps, RowTexels(pm, side, ps))
  }

  /** The first `i` rows as stored in the arrays. */
  function RowsRead<N>(pm: PatchMath<N>, points: array2<Vec3<N>>, uvPoints: array2<(N, N)>, i: nat): string
    reads points, uvPoints
    requires i <= points.Length0 && points.Length0 == uvPoints.Length0 && points.Length1 == uvPoints.Length1
  {
    if i == 0 then ""
    else RowsRead(pm, points, uvPoints, i - 1) + RowText(pm, RowOf(points, i - 1), RowOf(uvPoints, i - 1))
  }

  /** A filled grid reads back as the rows the grid defines. */
  lemma {:induction false} RowsReadFilled<N>(pm: PatchMath<N>, side: Side<N>, q: Corners<N>, normals: seq<seq<Vec3<N>>>, distances: seq<seq<N>>,
                                             rows: nat, columns: nat, points: array2<Vec3<N>>, uvPoints: array2<(N, N)>, i: nat)
    requires Covered(normals, distances, rows, columns)
    requires points.Length0 == rows && points.Length1 == columns
    requires uvPoints.Length0 == rows && uvPoints.Length1 == columns
    requires GridFilled(pm, side, q, normals, distances, rows, columns, points, uvPoints) && i <= rows
    ensures RowsRead(pm, points, uvPoints, i) == RowsTo(pm, side, q, normals, distances, rows, columns, i)
  {
    if i > 0 {
      RowsReadFilled(pm, side, q, normals, distances, rows, columns, points, uvPoints, i - 1);
      ghost var filled := RowFilled(pm, side, q, normals, distances, rows, columns, points, uvPoints, i - 1);
      assert filled;
    }
  }

  /** The columns loop of one row. */
  method WriteRow<N>(pm: PatchMath<N>, points: array2<Vec3<N>>, uvPoints: array2<(N, N)>, i: nat) returns (line: string)
    requires i < points.Length0 && points.Length0 == uvPoints.Length0 && points.Length1 == uvPoints.Length1
    ensures line == RowText(pm, RowOf(points, i), RowOf(uvPoints, i))
  {
    ghost var ps, uvs := RowOf(points, i), RowOf(uvPoints, i);
    line := "\n(";
    var j := 0;
    while j < points.Length1
      invariant 0 <= j <= points.Length1
      invariant line == "\n(" + CellsOf(pm, ps, uvs, j)
    {
      line := line + CellText(pm, points[i, j], uvPoints[i, j]);
      j := j + 1;
    }
    line := line + " )";
  }

  /** The rows loop: reads the grid back row by row. */
  method WriteRows<N>(pm: PatchMath<N>, points: array2<Vec3<N>>, uvPoints: array2<(N, N)>) returns (text: string)
    requires points.Length0 == uvPoints.Length0 && points.Length1 == uvPoints.Length1
    ensures text == RowsRead(pm, points, uvPoints, points.Length0)
  {
    text := "";
    var i := 0;
    while i < points.Length0
      invariant 0 <= i <= points.Length0
      invariant text == RowsRead(pm, points, uvPoints, i)
    {
      var line := WriteRow(pm, points, uvPoints, i);
      text := text + line;
      i := i + 1;
    }
  }

  // ---------------------------------------------------------------------------
  // Patch
  // ---------------------------------------------------------------------------

  /** Everything a patch needs before its grid: the rows, corners and distances, or `None`
      where the code throws (no or empty normals, a corner index outside `side.points`, or
      no distances for a grid that has cells to read them for). A grid without columns
      never reads its distances, so their absence is harmless there. */
  datatype PatchPlan<N> = PatchPlan(normals: seq<seq<Vec3<N>>>, distances: seq<seq<N>>, rows: nat, columns: nat, corners: Corners<N>)

  function Plan<N>(pm: PatchMath<N>, side: Side<N>): (r: Option<PatchPlan<N>>)
    requires side.dispinfo.Some?
    ensures var d := side.dispinfo.value;
      r.Some? <==>
        d.normals.Some? && |d.normals.value| > 0 && side.points.Some? &&
        (d.distances.Some? || |d.normals.value[0]| == 0) &&
        SelectCorners(side.points.value, pm.closest(d.startposition, side.points.value)).Some?
    ensures r.Some? ==> r.value.rows == |r.value.normals| > 0 && r.value.columns == |r.value.normals[0]|
    ensures r.Some? ==>
      side.points.Some? && side.dispinfo.value.normals == Some(r.value.normals) &&
      r.value.corners == SelectCorners(side.points.value, pm.closest(side.dispinfo.value.startposition, side.points.value)).value &&
      (side.dispinfo.value.distances.Some? ==> side.dispinfo.value.distances == Some(r.value.distances)) &&
      (side.dispinfo.value.distances.None? ==> r.value.columns == 0 && r.value.distances == [])
  {
    var d := side.dispinfo.value;
    if d.normals.None? || |d.normals.value| == 0 || side.points.None? then None
    else if d.distances.None? && |d.normals.value[0]| > 0 then None
    else
      var q := SelectCorners(side.points.value, pm.closest(d.startposition, side.points.value));
      var distances := if d.distances.Some? then d.distances.value else [];
      if q.None? then None
      else Some(PatchPlan(d.normals.value, distances, |d.normals.value|, |d.normals.value[0]|, q.value))
  }

  /** The patch text of a displaced side, or `None` where the code throws. */
  function PatchText<N>(pm: PatchMath<N>, side: Side<N>): Option<string>
    requires side.dispinfo.Some?
  {
    var plan := Plan(pm, side);
    if plan.None? then None
    else
      var p := plan.value;
      if !Covered(p.normals, p.distances, p.rows, p.columns) then None
      else Some(PatchHeader(side.material, p.rows, p.columns)
        + RowsTo(pm, side, p.corners, p.normals, p.distances, p.rows, p.columns, p.rows)
        + "\n)" + "\n}\n}")
  }

  /** A displaced side with a square grid, distances of the same shape and four corner
      points is always written, whatever the start position. */
  lemma SquarePatchWritten<N>(pm: PatchMath<N>, side: Side<N>)
    requires side.dispinfo.Some? && side.points.Some? && |side.points.value| == 4
    requires 0 <= pm.closest(side.dispinfo.value.startposition, side.points.value) < 4
    requires side.dispinfo.value.normals.Some? && side.dispinfo.value.distances.Some?
    requires var n := side.dispinfo.value.normals.value; var ds := side.dispinfo.value.distances.value;
      |n| > 0 && |ds| == |n| && forall j :: 0 <= j < |n| ==> |n[j]| == |n| && |ds[j]| == |n|
    ensures PatchText(pm, side).Some?
  {
    var d := side.dispinfo.value;
    CornersOfQuad(side.points.value, pm.closest(d.startposition, side.points.value));
    SquareGridCovered(d.normals.value, d.distances.value);
  }

  /** `k` rows without cells, `\n( )` each. */
  function EmptyRows(k: nat): (t: string)
    ensures |t| == 4 * k
  {
    if k == 0 then "" else EmptyRows(k - 1) + "\n( )"
  }

  /** A grid without columns reads no cell, and each of its rows is written empty. */
  lemma {:induction false} RowsWithoutColumns<N>(pm: PatchMath<N>, side: Side<N>, q: Corners<N>, normals: seq<seq<Vec3<N>>>,
                                                 distances: seq<seq<N>>, rows: nat, i: nat)
    requires i <= rows
    ensures Covered(normals, distances, rows, 0)
    ensures RowsTo(pm, side, q, normals, distances, rows, 0, i) == EmptyRows(i)
  {
    if i > 0 {
      RowsWithoutColumns(pm, side, q, normals, distances, rows, i - 1);
      var ps := RowPoints(pm, q, normals, distances, rows, 0, i - 1);
      assert ps == [];
      assert RowText(pm, ps, RowTexels(pm, side, ps)) == "\n( )";
    }
  }

  /** A displacement whose normals rows are empty is written as a patch of empty rows,
      whether or not it has distances: no cell is visited, so none is read. */
  lemma ColumnlessPatchWritten<N>(pm: PatchMath<N>, side: Side<N>)
    requires side.dispinfo.Some? && side.points.Some?
    requires side.dispinfo.value.normals.Some? && |side.dispinfo.value.normals.value| > 0
    requires |side.dispinfo.value.normals.value[0]| == 0
    requires SelectCorners(side.points.value, pm.closest(side.dispinfo.value.startposition, side.points.value)).Some?
    ensures var n := |side.dispinfo.value.normals.value|;
      PatchText(pm, side) == Some(PatchHeader(side.material, n, 0) + EmptyRows(n) + "\n)" + "\n}\n}")
  {
    var p := Plan(pm, side).value;
    RowsWithoutColumns(pm, side, p.corners, p.normals, p.distances, p.rows, p.rows);
  }

  /** The patch loop body for one side: header, grid, rows, closing braces. */
  method WritePatch<N>(pm: PatchMath<N>, side: Side<N>) returns (r: Option<string>)
    requires side.dispinfo.Some?
    ensures r == PatchText(pm, side)
  {
    var plan := Plan(pm, side);
    if plan.None? {
      return None;
    }
    var p := plan.value;
    var patchString := PatchHeader(side.material, p.rows, p.columns);
    var points, uvPoints := FillGrid(pm, side, p.corners, p.normals, p.distances, p.rows, p.columns);
    if points == null {
      return None;
    }
    var body := WriteRows(pm, points, uvPoints);
    RowsReadFilled(pm, side, p.corners, p.normals, p.distances, p.rows, p.columns, points, uvPoints, p.rows);
    patchString := patchString + body + "\n)" + "\n}\n}";
    return Some(patchString);
  }
}
