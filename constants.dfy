/** The editor's constants: the step sizes of the keyboard and scroll edits, the
    instantiation ceiling of the fractal, and the wireframe edge table of the
    unit cube. */
module Constants {

  /** Translation step, and the factor Shift applies to it. */
  const TranslateAdjustBase: real := 0.1
  const TranslateAdjustFine: real := 0.1

  /** Rotation step, in turns: 2π/24 radians is 1/24 of a turn. */
  const RotateAdjustBase: real := 1.0 / 24.0
  const RotateAdjustFine: real := 1.0 / 12.0

  /** Scale step per scroll unit, and the factor Shift applies to it. */
  const ScaleAdjustBase: real := 0.06
  const ScaleAdjustFine: real := 0.25

  /** Hue step per scroll unit (degrees), and the factor Shift applies to it. */
  const ColorAdjustBase: real := 2.0
  const ColorAdjustFine: real := 0.25

  /** The instantiation ceiling of the split-out state module. */
  const MaxCubes: nat := 2_000

  /** The ceiling the frame loop actually uses. */
  const FrameLoopMaxCubes: nat := 25_000

  /** Every `*_FINE` factor lies strictly between 0 and 1, so a Shift step is
      strictly smaller than (and in the same direction as) the plain step. */
  lemma FineStepsAreSmaller()
    ensures 0.0 < TranslateAdjustBase * TranslateAdjustFine < TranslateAdjustBase
    ensures 0.0 < RotateAdjustBase * RotateAdjustFine < RotateAdjustBase
    ensures 0.0 < ScaleAdjustBase * ScaleAdjustFine < ScaleAdjustBase
    ensures 0.0 < ColorAdjustBase * ColorAdjustFine < ColorAdjustBase
  {
  }

  // ---------------------------------------------------------------------------
  // The unit-cube edge table

  /** A corner of the unit cube centred at the origin, in doubled coordinates:
      each coordinate is +1 or -1 and stands for +0.5 or -0.5, so distances
      between corners are computed exactly on integers. */
  datatype Corner = Corner(x: int, y: int, z: int)

  /** The eight corners, in the order the edge table is built from. */
  const Corners: seq<Corner> := [
    Corner(1, 1, 1), Corner(-1, 1, 1), Corner(1, -1, 1), Corner(1, 1, -1),
    Corner(-1, -1, 1), Corner(-1, 1, -1), Corner(1, -1, -1), Corner(-1, -1, -1)]

  /** Four times the squared distance between two corners. */
  function DoubledSqDist(p: Corner, q: Corner): int {
    (p.x - q.x) * (p.x - q.x) + (p.y - q.y) * (p.y - q.y) + (p.z - q.z) * (p.z - q.z)
  }

  /** `(p1 - p2).norm() == 1.0`: the corners are at distance 1, which in doubled
      coordinates is a squared distance of 4. */
  predicate AtUnitDistance(e: (Corner, Corner)) {
    DoubledSqDist(e.0, e.1) == 4
  }

  /** Itertools' `cartesian_product`: every pair, the second component varying
      fastest. */
  function CartesianProduct<P, Q>(xs: seq<P>, ys: seq<Q>): seq<(P, Q)> {
    if xs == [] then []
    else seq(|ys|, j requires 0 <= j < |ys| => (xs[0], ys[j])) + CartesianProduct(xs[1..], ys)
  }

  /** `Iterator::filter` followed by `collect`. */
  function Filter<T>(s: seq<T>, keep: T -> bool): seq<T> {
    if s == [] then [] else Kept(s[0], keep) + Filter(s[1..], keep)
  }

  function Kept<T>(x: T, keep: T -> bool): seq<T> { if keep(x) then [x] else [] }

  /** The product holds exactly the pairs drawn from the two lists. */
  lemma {:induction false} CartesianProductMembers<P(!new), Q(!new)>(xs: seq<P>, ys: seq<Q>)
    ensures |CartesianProduct(xs, ys)| == |xs| * |ys|
    ensures forall e :: e in CartesianProduct(xs, ys) <==> e.0 in xs && e.1 in ys
  {
    if xs != [] {
      CartesianProductMembers(xs[1..], ys);
      var row := seq(|ys|, j requires 0 <= j < |ys| => (xs[0], ys[j]));
      assert CartesianProduct(xs, ys) == row + CartesianProduct(xs[1..], ys);
      forall e: (P, Q) | e.0 == xs[0] && e.1 in ys ensures e in row {
        var j :| 0 <= j < |ys| && ys[j] == e.1;
        assert row[j] == e;
      }
      assert forall e :: e in xs <==> e == xs[0] || e in xs[1..];
    }
  }

  /** The filter keeps exactly the elements satisfying the predicate. */
  lemma {:induction false} FilterMembers<T(!new)>(s: seq<T>, keep: T -> bool)
    ensures forall e :: e in Filter(s, keep) <==> e in s && keep(e)
  {
    if s != [] {
      FilterMembers(s[1..], keep);
      assert forall e :: e in s <==> e == s[0] || e in s[1..];
    }
  }

  /** The two corners differ in exactly one coordinate, and there they are
      opposite. */
  predicate OneAxisApart(e: (Corner, Corner)) {
    var (p, q) := e;
    (p.x == -q.x != 0 && p.y == q.y && p.z == q.z) ||
    (p.x == q.x && p.y == -q.y != 0 && p.z == q.z) ||
    (p.x == q.x && p.y == q.y && p.z == -q.z != 0)
  }

  /** `BOX_EDGES`: the ordered pairs of corners at distance one. */
  function BoxEdges(): seq<(Corner, Corner)> {
    Filter(CartesianProduct(Corners, Corners), AtUnitDistance)
  }

  /** The neighbours of each corner, by position in `Corners`, in the order the
      filter meets them. */
  const NeighbourIndices: seq<(nat, nat, nat)> := [
    (1, 2, 3), (0, 4, 5), (0, 4, 6), (0, 5, 6), (1, 2, 7), (1, 3, 7), (2, 3, 7), (4, 5, 6)]

  /** The three table entries that start at corner i. */
  function EdgeRow(i: nat): seq<(Corner, Corner)>
    requires i < 8
  {
    var (a, b, c) := NeighbourIndices[i];
    [(Corners[i], Corners[a]), (Corners[i], Corners[b]), (Corners[i], Corners[c])]
  }

  /** The eight rows, one per corner. */
  function EdgeRows(): seq<seq<(Corner, Corner)>> {
    seq(8, i requires 0 <= i < 8 => EdgeRow(i))
  }

  /** Rows laid end to end. */
  function Flatten<T>(rows: seq<seq<T>>): seq<T> {
    if rows == [] then [] else rows[0] + Flatten(rows[1..])
  }

  /** The table: for each corner in order, its three neighbours. */
  function EdgeTable(): seq<(Corner, Corner)> { Flatten(EdgeRows()) }

  /** Laying rows of three end to end puts entry j of row q at position 3q + j. */
  lemma {:induction false} FlattenIndex<T>(rows: seq<seq<T>>)
    requires forall q :: 0 <= q < |rows| ==> |rows[q]| == 3
    ensures |Flatten(rows)| == 3 * |rows|
    ensures forall q, j :: 0 <= q < |rows| && 0 <= j < 3 ==> Flatten(rows)[3 * q + j] == rows[q][j]
    decreases |rows|
  {
    if rows != [] {
      var rest := rows[1..];
      assert forall q :: 0 <= q < |rest| ==> rest[q] == rows[q + 1];
      FlattenIndex(rest);
      var t := Flatten(rows);
      assert t == rows[0] + Flatten(rest);
      forall q, j | 0 < q < |rows| && 0 <= j < 3 ensures t[3 * q + j] == rows[q][j] {
        assert t[3 * q + j] == Flatten(rest)[3 * (q - 1) + j];
      }
    }
  }

  /** Position 3q + j of the table is entry j of the row of corner q. */
  lemma EdgeTableIndex()
    ensures |EdgeTable()| == 24
    ensures forall q, j :: 0 <= q < 8 && 0 <= j < 3 ==> EdgeTable()[3 * q + j] == EdgeRow(q)[j]
  {
    var rows := EdgeRows();
    forall q | 0 <= q < |rows| ensures |rows[q]| == 3 {
      assert rows[q] == EdgeRow(q);
    }
    FlattenIndex(rows);
    forall q, j | 0 <= q < 8 && 0 <= j < 3 ensures EdgeTable()[3 * q + j] == EdgeRow(q)[j] {
      assert rows[q] == EdgeRow(q);
    }
  }

  /** Every table entry starts at corner k / 3 and runs along one axis. */
  lemma EdgeTableShape()
    ensures |EdgeTable()| == 24
    ensures forall k :: 0 <= k < 24 ==> EdgeTable()[k].0 == Corners[k / 3] && OneAxisApart(EdgeTable()[k])
  {
    EdgeTableIndex();
    forall k | 0 <= k < 24 ensures EdgeTable()[k].0 == Corners[k / 3] && OneAxisApart(EdgeTable()[k]) {
      var q, j := k / 3, k % 3;
      assert EdgeTable()[k] == EdgeRow(q)[j] by { assert k == 3 * q + j; }
      EdgeRowShape(q);
    }
  }

  /** Each row starts at its own corner and runs along one axis. */
  lemma EdgeRowShape(i: nat)
    requires i < 8
    ensures forall j :: 0 <= j < 3 ==> EdgeRow(i)[j].0 == Corners[i] && OneAxisApart(EdgeRow(i)[j])
  {
    if i == 0 {
    } else if i == 1 {
    } else if i == 2 {
    } else if i == 3 {
    } else if i == 4 {
    } else if i == 5 {
    } else if i == 6 {
    } else {
    }
  }

  lemma {:induction false} FilterConcat<T>(s: seq<T>, t: seq<T>, keep: T -> bool)
    ensures Filter(s + t, keep) == Filter(s, keep) + Filter(t, keep)
    decreases |s|
  {
    if s != [] {
      assert (s + t)[1..] == s[1..] + t;
      FilterConcat(s[1..], t, keep);
    } else {
      assert s + t == t;
    }
  }

  /** Filtering eight elements, unrolled. */
  lemma FilterOfEight<T>(s: seq<T>, keep: T -> bool)
    requires |s| == 8
    ensures Filter(s, keep) == Kept(s[0], keep) + (Kept(s[1], keep) + (Kept(s[2], keep) + (Kept(s[3], keep)
                                + (Kept(s[4], keep) + (Kept(s[5], keep) + (Kept(s[6], keep) + Kept(s[7], keep)))))))
  {
    assert s[1..][1..] == s[2..];
    assert s[2..][1..] == s[3..];
    assert s[3..][1..] == s[4..];
    assert s[4..][1..] == s[5..];
    assert s[5..][1..] == s[6..];
    assert s[6..][1..] == s[7..];
    assert s[7..][1..] == [];
    assert Filter(s[7..], keep) == Kept(s[7], keep);
    assert Filter(s[6..], keep) == Kept(s[6], keep) + Filter(s[7..], keep);
    assert Filter(s[5..], keep) == Kept(s[5], keep) + Filter(s[6..], keep);
    assert Filter(s[4..], keep) == Kept(s[4], keep) + Filter(s[5..], keep);
    assert Filter(s[3..], keep) == Kept(s[3], keep) + Filter(s[4..], keep);
    assert Filter(s[2..], keep) == Kept(s[2], keep) + Filter(s[3..], keep);
    assert Filter(s[1..], keep) == Kept(s[1], keep) + Filter(s[2..], keep);
  }

  /** Flattening eight rows, unrolled. */
  lemma FlattenOfEight<T>(rows: seq<seq<T>>)
    requires |rows| == 8
    ensures Flatten(rows) == rows[0] + (rows[1] + (rows[2] + (rows[3] + (rows[4] + (rows[5] + (rows[6] + rows[7]))))))
  {
    assert rows[1..][1..] == rows[2..];
    assert rows[2..][1..] == rows[3..];
    assert rows[3..][1..] == rows[4..];
    assert rows[4..][1..] == rows[5..];
    assert rows[5..][1..] == rows[6..];
    assert rows[6..][1..] == rows[7..];
    assert rows[7..][1..] == [];
    assert Flatten(rows[7..]) == rows[7];
    assert Flatten(rows[6..]) == rows[6] + Flatten(rows[7..]);
    assert Flatten(rows[5..]) == rows[5] + Flatten(rows[6..]);
    assert Flatten(rows[4..]) == rows[4] + Flatten(rows[5..]);
    assert Flatten(rows[3..]) == rows[3] + Flatten(rows[4..]);
    assert Flatten(rows[2..]) == rows[2] + Flatten(rows[3..]);
    assert Flatten(rows[1..]) == rows[1] + Flatten(rows[2..]);
  }

  /** The pairs whose first component is `p`, in product order. */
  function ProductRow(p: Corner): seq<(Corner, Corner)> {
    seq(8, j requires 0 <= j < 8 => (p, Corners[j]))
  }

  lemma ProductByRows()
    ensures CartesianProduct(Corners, Corners)
         == ProductRow(Corners[0]) + ProductRow(Corners[1]) + ProductRow(Corners[2]) + ProductRow(Corners[3])
          + ProductRow(Corners[4]) + ProductRow(Corners[5]) + ProductRow(Corners[6]) + ProductRow(Corners[7])
  {
    var c := Corners;
    assert CartesianProduct(c[8..], c) == [];
    assert CartesianProduct(c[7..], c) == ProductRow(c[7]) + CartesianProduct(c[8..], c);
    assert CartesianProduct(c[6..], c) == ProductRow(c[6]) + CartesianProduct(c[7..], c);
    assert CartesianProduct(c[5..], c) == ProductRow(c[5]) + CartesianProduct(c[6..], c);
    assert CartesianProduct(c[4..], c) == ProductRow(c[4]) + CartesianProduct(c[5..], c);
    assert CartesianProduct(c[3..], c) == ProductRow(c[3]) + CartesianProduct(c[4..], c);
    assert CartesianProduct(c[2..], c) == ProductRow(c[2]) + CartesianProduct(c[3..], c);
    assert CartesianProduct(c[1..], c) == ProductRow(c[1]) + CartesianProduct(c[2..], c);
    assert c[0..] == c;
  }

  /** Row i of the product, filtered, is the i-th group of three in the table. */
  lemma FilteredRow(i: nat)
    requires i < 8
    ensures Filter(ProductRow(Corners[i]), AtUnitDistance) == EdgeRow(i)
  {
    FilterOfEight(ProductRow(Corners[i]), AtUnitDistance);
    if i == 0 {
    } else if i == 1 {
    } else if i == 2 {
    } else if i == 3 {
    } else if i == 4 {
    } else if i == 5 {
    } else if i == 6 {
    } else {
    }
  }

  /** The filtered product, evaluated: `BOX_EDGES` is the table above. */
  lemma BoxEdgesValue()
    ensures BoxEdges() == EdgeTable()
  {
    var c := Corners;
    var r0, r1, r2, r3 := ProductRow(c[0]), ProductRow(c[1]), ProductRow(c[2]), ProductRow(c[3]);
    var r4, r5, r6, r7 := ProductRow(c[4]), ProductRow(c[5]), ProductRow(c[6]), ProductRow(c[7]);
    ProductByRows();
    assert CartesianProduct(c, c) == r0 + (r1 + (r2 + (r3 + (r4 + (r5 + (r6 + r7)))))) by {
      assert r0 + r1 + r2 + r3 + r4 + r5 + r6 + r7 == r0 + (r1 + (r2 + (r3 + (r4 + (r5 + (r6 + r7))))));
    }
    FilterConcat(r0, r1 + (r2 + (r3 + (r4 + (r5 + (r6 + r7))))), AtUnitDistance);
    FilterConcat(r1, r2 + (r3 + (r4 + (r5 + (r6 + r7)))), AtUnitDistance);
    FilterConcat(r2, r3 + (r4 + (r5 + (r6 + r7))), AtUnitDistance);
    FilterConcat(r3, r4 + (r5 + (r6 + r7)), AtUnitDistance);
    FilterConcat(r4, r5 + (r6 + r7), AtUnitDistance);
    FilterConcat(r5, r6 + r7, AtUnitDistance);
    FilterConcat(r6, r7, AtUnitDistance);
    FilteredRow(0); FilteredRow(1); FilteredRow(2); FilteredRow(3);
    FilteredRow(4); FilteredRow(5); FilteredRow(6); FilteredRow(7);
    EdgeTableUnrolled();
  }

  lemma EdgeTableUnrolled()
    ensures EdgeTable() == EdgeRow(0) + (EdgeRow(1) + (EdgeRow(2) + (EdgeRow(3)
                         + (EdgeRow(4) + (EdgeRow(5) + (EdgeRow(6) + EdgeRow(7)))))))
  {
    var rows := EdgeRows();
    FlattenOfEight(rows);
    assert rows[0] == EdgeRow(0) && rows[1] == EdgeRow(1) && rows[2] == EdgeRow(2) && rows[3] == EdgeRow(3);
    assert rows[4] == EdgeRow(4) && rows[5] == EdgeRow(5) && rows[6] == EdgeRow(6) && rows[7] == EdgeRow(7);
  }

  /** A pair is in `BOX_EDGES` exactly when both ends are cube corners at
      distance one. */
  lemma BoxEdgesAreUnitPairs()
    ensures forall e :: e in BoxEdges() <==> e.0 in Corners && e.1 in Corners && AtUnitDistance(e)
  {
    CartesianProductMembers(Corners, Corners);
    FilterMembers(CartesianProduct(Corners, Corners), AtUnitDistance);
  }

  /** Every edge is listed in both directions, and no corner is paired with
      itself. */
  lemma BoxEdgesSymmetricIrreflexive()
    ensures forall p, q :: (p, q) in BoxEdges() <==> (q, p) in BoxEdges()
    ensures forall p :: (p, p) !in BoxEdges()
  {
    BoxEdgesAreUnitPairs();
    forall p, q ensures (p, q) in BoxEdges() <==> (q, p) in BoxEdges() {
      DistSymmetric(p, q);
    }
    forall p ensures (p, p) !in BoxEdges() {
      DistSymmetric(p, p);
    }
  }

  lemma DistSymmetric(p: Corner, q: Corner)
    ensures DoubledSqDist(p, q) == DoubledSqDist(q, p)
    ensures DoubledSqDist(p, p) == 0
  {
  }

  /** In doubled coordinates the two ends of every edge differ in exactly one
      coordinate, where one end has +1 and the other -1. */
  lemma BoxEdgesAlongOneAxis()
    ensures forall k :: 0 <= k < |BoxEdges()| ==> OneAxisApart(BoxEdges()[k])
  {
    BoxEdgesValue();
    EdgeTableShape();
  }

  /** Every coordinate of the corner is +1 or -1. */
  predicate UnitCoords(p: Corner) {
    (p.x == 1 || p.x == -1) && (p.y == 1 || p.y == -1) && (p.z == 1 || p.z == -1)
  }

  /** Both ends of every pair are cube corners, and the pair runs along one
      axis. */
  lemma BoxEdgesShape()
    ensures |BoxEdges()| == 24
    ensures forall k :: 0 <= k < 24 ==>
      UnitCoords(BoxEdges()[k].0) && UnitCoords(BoxEdges()[k].1) && OneAxisApart(BoxEdges()[k])
  {
    BoxEdgesValue();
    EdgeTableShape();
    BoxEdgesAreUnitPairs();
    forall k | 0 <= k < 24
      ensures UnitCoords(BoxEdges()[k].0) && UnitCoords(BoxEdges()[k].1)
    {
      var e := BoxEdges()[k];
      assert e in BoxEdges();
      CornersHaveUnitCoords();
    }
  }

  lemma CornersHaveUnitCoords()
    ensures forall p :: p in Corners ==> UnitCoords(p)
  {
  }

  /** There are 24 ordered pairs (12 edges, each in both directions), grouped by
      first corner in corner order: the pair at position k starts at corner
      k / 3, so every corner is the first element of exactly three pairs. */
  lemma BoxEdgesCount()
    ensures |BoxEdges()| == 24
    ensures forall k :: 0 <= k < 24 ==> BoxEdges()[k].0 == Corners[k / 3]
  {
    BoxEdgesValue();
    EdgeTableShape();
  }

  /** The eight corners are distinct, so "starts at corner k / 3" pins each
      corner to exactly the three positions 3i, 3i+1, 3i+2. */
  lemma CornersDistinct()
    ensures forall i, j :: 0 <= i < j < 8 ==> Corners[i] != Corners[j]
  {
  }

  /** Every corner is the first element of exactly three pairs: those at
      positions 3i, 3i+1 and 3i+2 for the i-th corner. */
  lemma ThreePairsPerCorner()
    ensures forall i, k :: 0 <= i < 8 && 0 <= k < |BoxEdges()| ==> (BoxEdges()[k].0 == Corners[i] <==> k / 3 == i)
  {
    BoxEdgesCount();
    CornersDistinct();
    forall i, k | 0 <= i < 8 && 0 <= k < 24
      ensures BoxEdges()[k].0 == Corners[i] <==> k / 3 == i
    {
      if k / 3 != i {
        if k / 3 < i { assert Corners[k / 3] != Corners[i]; } else { assert Corners[i] != Corners[k / 3]; }
      }
    }
  }
}
