/** `trilinear_interpolation` and `bilinear_interpolation` for a batch of
    one point: the point is clamped to the world box and scaled into grid
    units in place, then its weight is spread over the corners of the grid
    cell it falls in, one `+=` per corner. */
module Interpolation {
  import opened Sums
  import opened GridIndex
  import opened PointTensor

  /** The corners of a point on one axis: `low` and `high` cell indices and
      the fraction `f` of the way from low. */
  datatype Corner = Corner(low: int, high: int, f: real)

  /** Lines 31-40: `low = int(u)`, `high = low + 1`, both clamped to the
      grid, and `f = u - low` taken after the clamp. */
  function CornerOf(u: real, v: int): (c: Corner)
    requires 0.0 <= u < (v + 1) as real && v >= 1
    ensures 0 <= c.low <= c.high < v
    ensures c.high == c.low + 1 || c.high == c.low
    // low + f puts the point back where it was
    ensures c.low as real + c.f == u
    // an interior point has a fraction in [0, 1)
    ensures c.high == c.low + 1 ==> 0.0 <= c.f < 1.0
    // the corners only coincide in the last cell, where f may reach 1 and beyond
    ensures c.high == c.low ==> c.low == v - 1 && 0.0 <= c.f < 2.0
  {
    var t := Trunc(u);
    var low := ClampInt(t, 0, v - 1);
    Corner(low, ClampInt(t + 1, 0, v - 1), u - low as real)
  }

  /** The corners of world coordinate p on axis a: clamped in world units,
      then scaled. */
  function CornerAxis(a: GridAxis, p: real): (c: Corner)
    ensures 0 <= c.low <= c.high < a.Cells()
    ensures c.high == c.low + 1 || c.high == c.low
    // for a point inside the box, low + f is its scaled coordinate
    ensures a.lower <= p <= a.upper ==> c.low as real + c.f == (p - a.lower) / a.voxel
  {
    CornerOf(WorldCoord(a, p), a.Cells())
  }

  /** The share of cell g in a point with corners c on one axis: 1 - f at
      low, f at high, both when they coincide, nothing elsewhere. */
  function AxisWeight(c: Corner, g: int): real
  {
    (if g == c.low then 1.0 - c.f else 0.0) + (if g == c.high then c.f else 0.0)
  }

  /** Between distinct corners, the weights reproduce the coordinate: the
      weighted mean of low and high is low + f. */
  lemma {:induction false} InteriorWeightsReproduce(u: real, v: int)
    requires 0.0 <= u < (v + 1) as real && v >= 1
    requires CornerOf(u, v).high == CornerOf(u, v).low + 1
    ensures AxisWeight(CornerOf(u, v), CornerOf(u, v).low) * CornerOf(u, v).low as real
            + AxisWeight(CornerOf(u, v), CornerOf(u, v).high) * CornerOf(u, v).high as real == u
    ensures 0.0 <= CornerOf(u, v).f < 1.0
  {
    var c := CornerOf(u, v);
    assert (1.0 - c.f) * c.low as real + c.f * (c.low + 1) as real == c.low as real + c.f;
  }

  type Cell3 = (int, int, int)
  type Cell2 = (int, int)

  /** One `vox[cell] += weight` statement of the source. */
  datatype Deposit3 = Deposit3(cell: Cell3, weight: real)
  datatype Deposit2 = Deposit2(cell: Cell2, weight: real)

  function Weight3(d: Deposit3): real { d.weight }
  function Weight2(d: Deposit2): real { d.weight }

  /** What deposit d puts into cell c. */
  function WeightAt3(c: Cell3): Deposit3 -> real
  {
    (d: Deposit3) => if d.cell == c then d.weight else 0.0
  }

  function WeightAt2(c: Cell2): Deposit2 -> real
  {
    (d: Deposit2) => if d.cell == c then d.weight else 0.0
  }

  /** The value a zero grid holds in cell c after the deposits ds. */
  function CellMass3(ds: seq<Deposit3>, c: Cell3): real
  {
    SumOver(ds, WeightAt3(c))
  }

  function CellMass2(ds: seq<Deposit2>, c: Cell2): real
  {
    SumOver(ds, WeightAt2(c))
  }

  /** Lines 44-51, in the source's order (the sixth deposit is (h, h, l),
      the seventh (h, l, h)). */
  function TrilinearDeposits(x: Corner, y: Corner, z: Corner): (ds: seq<Deposit3>)
    ensures |ds| == 8
  {
    [ Deposit3((x.low, y.low, z.low), (1.0 - x.f) * (1.0 - y.f) * (1.0 - z.f)),
      Deposit3((x.low, y.low, z.high), (1.0 - x.f) * (1.0 - y.f) * z.f),
      Deposit3((x.low, y.high, z.low), (1.0 - x.f) * y.f * (1.0 - z.f)),
      Deposit3((x.low, y.high, z.high), (1.0 - x.f) * y.f * z.f),
      Deposit3((x.high, y.low, z.low), x.f * (1.0 - y.f) * (1.0 - z.f)),
      Deposit3((x.high, y.high, z.low), x.f * y.f * (1.0 - z.f)),
      Deposit3((x.high, y.low, z.high), x.f * (1.0 - y.f) * z.f),
      Deposit3((x.high, y.high, z.high), x.f * y.f * z.f) ]
  }

  /** The eight weights always add up to one, whatever the fractions. */
  lemma {:induction false} TrilinearMass(x: Corner, y: Corner, z: Corner)
    ensures SumOver(TrilinearDeposits(x, y, z), Weight3) == 1.0
  {
    SumOver8(TrilinearDeposits(x, y, z), Weight3);
  }

  /** What one axis contributes to cell g from corner p with weight w. */
  function Pick(g: int, p: int, w: real): real
  {
    if g == p then w else 0.0
  }

  /** A deposit at (p, q) of a product weight puts the product of the
      per-axis picks into cell c. */
  lemma {:induction false} DepositShare2(c: Cell2, p: int, q: int, wa: real, wb: real)
    ensures WeightAt2(c)(Deposit2((p, q), wa * wb)) == Pick(c.0, p, wa) * Pick(c.1, q, wb)
  {
  }

  /** The deposits es over (y, z), each moved to x index p and scaled by
      wa. */
  function Lift(p: int, wa: real, es: seq<Deposit2>): (ds: seq<Deposit3>)
    ensures |ds| == |es|
    ensures forall k :: 0 <= k < |es| ==> ds[k] == Deposit3((p, es[k].cell.0, es[k].cell.1), wa * es[k].weight)
  {
    seq(|es|, k requires 0 <= k < |es| => Deposit3((p, es[k].cell.0, es[k].cell.1), wa * es[k].weight))
  }

  lemma {:induction false} LiftShare(c: Cell3, p: int, wa: real, e: Deposit2)
    ensures WeightAt3(c)(Deposit3((p, e.cell.0, e.cell.1), wa * e.weight)) == Pick(c.0, p, wa) * WeightAt2((c.1, c.2))(e)
  {
  }

  /** A lifted spread puts into cell c the x-axis pick of wa times what the
      spread over (y, z) puts into (c.1, c.2). */
  lemma {:induction false} LiftCell(p: int, wa: real, es: seq<Deposit2>, c: Cell3)
    ensures CellMass3(Lift(p, wa, es), c) == Pick(c.0, p, wa) * CellMass2(es, (c.1, c.2))
    decreases |es|
  {
    if |es| > 0 {
      var n := |es| - 1;
      var ds := Lift(p, wa, es);
      assert forall k :: 0 <= k < n ==> ds[..n][k] == Lift(p, wa, es[..n])[k] by {
        forall k | 0 <= k < n
          ensures ds[..n][k] == Lift(p, wa, es[..n])[k]
        {
          assert es[..n][k] == es[k];
        }
      }
      assert ds[..n] == Lift(p, wa, es[..n]);
      LiftCell(p, wa, es[..n], c);
      LiftShare(c, p, wa, es[n]);
      var a, m, t := Pick(c.0, p, wa), CellMass2(es[..n], (c.1, c.2)), WeightAt2((c.1, c.2))(es[n]);
      assert a * m + a * t == a * (m + t);
    }
  }

  /** The trilinear deposits are the corrected bilinear ones over (y, z),
      lifted to the low and the high x corner (lines 48-51 list the
      middle two (y, z) corners in the other order). */
  lemma {:induction false} TrilinearAsLifts(x: Corner, y: Corner, z: Corner)
    ensures var es := BilinearDeposits(y, z);
            TrilinearDeposits(x, y, z) == Lift(x.low, 1.0 - x.f, es) + Lift(x.high, x.f, [es[0], es[2], es[1], es[3]])
  {
    var ds := TrilinearDeposits(x, y, z);
    TrilinearLowHalf(x, y, z);
    TrilinearHighHalf(x, y, z);
    assert ds == ds[..4] + ds[4..];
  }

  /** The first four trilinear deposits sit on plane x.low. */
  lemma {:induction false} TrilinearLowHalf(x: Corner, y: Corner, z: Corner)
    ensures TrilinearDeposits(x, y, z)[..4] == Lift(x.low, 1.0 - x.f, BilinearDeposits(y, z))
  {
    var ds := TrilinearDeposits(x, y, z);
    var lo := Lift(x.low, 1.0 - x.f, BilinearDeposits(y, z));
    assert ds[0] == lo[0] by { Assoc((1.0 - x.f), (1.0 - y.f), (1.0 - z.f)); }
    assert ds[1] == lo[1] by { Assoc((1.0 - x.f), (1.0 - y.f), z.f); }
    assert ds[2] == lo[2] by { Assoc((1.0 - x.f), y.f, (1.0 - z.f)); }
    assert ds[3] == lo[3] by { Assoc((1.0 - x.f), y.f, z.f); }
  }

  /** The last four sit on plane x.high, with the middle two in swapped
      order. */
  lemma {:induction false} TrilinearHighHalf(x: Corner, y: Corner, z: Corner)
    ensures var es := BilinearDeposits(y, z);
            TrilinearDeposits(x, y, z)[4..] == Lift(x.high, x.f, [es[0], es[2], es[1], es[3]])
  {
    var ds := TrilinearDeposits(x, y, z);
    var es := BilinearDeposits(y, z);
    var hi := Lift(x.high, x.f, [es[0], es[2], es[1], es[3]]);
    assert ds[4] == hi[0] by { Assoc(x.f, (1.0 - y.f), (1.0 - z.f)); }
    assert ds[5] == hi[1] by { Assoc(x.f, y.f, (1.0 - z.f)); }
    assert ds[6] == hi[2] by { Assoc(x.f, (1.0 - y.f), z.f); }
    assert ds[7] == hi[3] by { Assoc(x.f, y.f, z.f); }
  }

  /** The trilinear spread splits at the x corners. */
  lemma {:induction false} TrilinearSplit(x: Corner, y: Corner, z: Corner, c: Cell3)
    ensures var es := BilinearDeposits(y, z);
            CellMass3(TrilinearDeposits(x, y, z), c)
            == CellMass3(Lift(x.low, 1.0 - x.f, es), c) + CellMass3(Lift(x.high, x.f, [es[0], es[2], es[1], es[3]]), c)
  {
    var es := BilinearDeposits(y, z);
    TrilinearAsLifts(x, y, z);
    SumOverConcat(Lift(x.low, 1.0 - x.f, es), Lift(x.high, x.f, [es[0], es[2], es[1], es[3]]), WeightAt3(c));
  }

  /** Listing the middle two bilinear deposits the other way round changes
      no cell. */
  lemma {:induction false} SwappedBilinearCell(y: Corner, z: Corner, g: Cell2)
    ensures var es := BilinearDeposits(y, z);
            CellMass2([es[0], es[2], es[1], es[3]], g) == CellMass2(es, g)
  {
    var es := BilinearDeposits(y, z);
    SumOver4([es[0], es[2], es[1], es[3]], WeightAt2(g));
    SumOver4(es, WeightAt2(g));
  }

  /** Cell c of the trilinear spread gets the low x pick times what the
      bilinear spread puts into (c.1, c.2), plus the high x pick times the
      same. */
  lemma {:induction false} TrilinearHalves(x: Corner, y: Corner, z: Corner, c: Cell3)
    ensures var bc := CellMass2(BilinearDeposits(y, z), (c.1, c.2));
            CellMass3(TrilinearDeposits(x, y, z), c) == Pick(c.0, x.low, 1.0 - x.f) * bc + Pick(c.0, x.high, x.f) * bc
  {
    TrilinearSplit(x, y, z, c);
    LowHalfCell(x, y, z, c);
    HighHalfCell(x, y, z, c);
  }

  lemma {:induction false} LowHalfCell(x: Corner, y: Corner, z: Corner, c: Cell3)
    ensures CellMass3(Lift(x.low, 1.0 - x.f, BilinearDeposits(y, z)), c)
            == Pick(c.0, x.low, 1.0 - x.f) * CellMass2(BilinearDeposits(y, z), (c.1, c.2))
  {
    LiftCell(x.low, 1.0 - x.f, BilinearDeposits(y, z), c);
  }

  lemma {:induction false} HighHalfCell(x: Corner, y: Corner, z: Corner, c: Cell3)
    ensures var es := BilinearDeposits(y, z);
            CellMass3(Lift(x.high, x.f, [es[0], es[2], es[1], es[3]]), c)
            == Pick(c.0, x.high, x.f) * CellMass2(es, (c.1, c.2))
  {
    var es := BilinearDeposits(y, z);
    LiftCell(x.high, x.f, [es[0], es[2], es[1], es[3]], c);
    SwappedBilinearCell(y, z, (c.1, c.2));
  }

  /** Trilinear is linear along x times bilinear along y and z. */
  lemma {:induction false} TrilinearOverBilinear(x: Corner, y: Corner, z: Corner, c: Cell3)
    ensures CellMass3(TrilinearDeposits(x, y, z), c) == AxisWeight(x, c.0) * CellMass2(BilinearDeposits(y, z), (c.1, c.2))
  {
    TrilinearHalves(x, y, z, c);
    Distribute(CellMass3(TrilinearDeposits(x, y, z), c), Pick(c.0, x.low, 1.0 - x.f), Pick(c.0, x.high, x.f),
               AxisWeight(x, c.0), CellMass2(BilinearDeposits(y, z), (c.1, c.2)));
  }

  /** The grid is the tensor product of the per-axis weights: every cell gets
      the product of its three axis weights, even where corners coincide. */
  lemma {:induction false} TrilinearCellWeights(x: Corner, y: Corner, z: Corner, c: Cell3)
    ensures CellMass3(TrilinearDeposits(x, y, z), c) == AxisWeight(x, c.0) * AxisWeight(y, c.1) * AxisWeight(z, c.2)
  {
    TrilinearOverBilinear(x, y, z, c);
    BilinearCellWeights(y, z, (c.1, c.2));
    Regroup(CellMass3(TrilinearDeposits(x, y, z), c), AxisWeight(x, c.0), AxisWeight(y, c.1), AxisWeight(z, c.2),
            CellMass2(BilinearDeposits(y, z), (c.1, c.2)));
  }

  // The arithmetic steps above, on plain numbers, so that the solver does
  // not see the case splits inside the weights while it does them.

  lemma {:induction false} Distribute(m: real, a0: real, a1: real, p: real, b: real)
    requires m == a0 * b + a1 * b && p == a0 + a1
    ensures m == p * b
  {
  }

  lemma {:induction false} Regroup(m: real, p: real, q: real, r: real, b: real)
    requires m == p * b && b == q * r
    ensures m == p * q * r
  {
  }

  lemma {:induction false} Assoc(a: real, b: real, c: real)
    ensures a * b * c == a * (b * c)
  {
  }

  /** Lines 79-82 as written: the fourth statement repeats the third, so
      (high, low) is deposited twice and (high, high) never. */
  function BilinearDepositsAsWritten(x: Corner, y: Corner): (ds: seq<Deposit2>)
    ensures |ds| == 4
  {
    [ Deposit2((x.low, y.low), (1.0 - x.f) * (1.0 - y.f)),
      Deposit2((x.low, y.high), (1.0 - x.f) * y.f),
      Deposit2((x.high, y.low), x.f * (1.0 - y.f)),
      Deposit2((x.high, y.low), x.f * (1.0 - y.f)) ]
  }

  /** The total the source deposits is (1 - fx) + 2 fx (1 - fy), which is
      one only when fx = 0 or fy = 1/2. */
  lemma {:induction false} BilinearMassAsWritten(x: Corner, y: Corner)
    ensures SumOver(BilinearDepositsAsWritten(x, y), Weight2) == (1.0 - x.f) + 2.0 * x.f * (1.0 - y.f)
    ensures SumOver(BilinearDepositsAsWritten(x, y), Weight2) == 1.0 <==> x.f == 0.0 || y.f == 0.5
  {
    SumOver4(BilinearDepositsAsWritten(x, y), Weight2);
    var m := SumOver(BilinearDepositsAsWritten(x, y), Weight2);
    assert m - 1.0 == x.f * (1.0 - 2.0 * y.f);
    if m == 1.0 {
      ZeroProduct(x.f, 1.0 - 2.0 * y.f);
    }
  }

  lemma {:induction false} ZeroProduct(a: real, b: real)
    requires a * b == 0.0
    ensures a == 0.0 || b == 0.0
  {
    if a != 0.0 {
      assert b == (a * b) / a;
    }
  }

  /** When the corners are distinct on both axes, the (high, high) cell gets
      nothing and the (high, low) cell gets its weight twice. */
  lemma {:induction false} BilinearCornersAsWritten(x: Corner, y: Corner)
    requires x.high != x.low && y.high != y.low
    ensures CellMass2(BilinearDepositsAsWritten(x, y), (x.high, y.high)) == 0.0
    ensures CellMass2(BilinearDepositsAsWritten(x, y), (x.high, y.low)) == 2.0 * x.f * (1.0 - y.f)
  {
    SumOver4(BilinearDepositsAsWritten(x, y), WeightAt2((x.high, y.high)));
    SumOver4(BilinearDepositsAsWritten(x, y), WeightAt2((x.high, y.low)));
  }

  /** A point at (2.5, 2.25) on a 5-by-5 grid of unit cells: the source
      deposits a total of 1.25, and nothing in cell (3, 3). */
  lemma {:induction false} BilinearCounterexample()
    ensures CornerAxis(Axis(0.0, 5.0, 1.0), 2.5) == Corner(2, 3, 0.5)
    ensures CornerAxis(Axis(0.0, 5.0, 1.0), 2.25) == Corner(2, 3, 0.25)
    ensures SumOver(BilinearDepositsAsWritten(Corner(2, 3, 0.5), Corner(2, 3, 0.25)), Weight2) == 1.25
    ensures CellMass2(BilinearDepositsAsWritten(Corner(2, 3, 0.5), Corner(2, 3, 0.25)), (3, 3)) == 0.0
  {
    var a := Axis(0.0, 5.0, 1.0);
    assert a.Cells() == 5;
    assert WorldCoord(a, 2.5) == 2.5;
    assert WorldCoord(a, 2.25) == 2.25;
    BilinearMassAsWritten(Corner(2, 3, 0.5), Corner(2, 3, 0.25));
    BilinearCornersAsWritten(Corner(2, 3, 0.5), Corner(2, 3, 0.25));
  }

  /** The y axis of `bilinear_interpolation`'s default arguments (lines 54
      and 66), [-3.84, 3.84] in steps of 10, has no cell: the grid gets an
      empty second axis, and clamping an index to [0, vy - 1] gives -1, a
      cell no grid of that shape has. */
  lemma {:induction false} DefaultBilinearYAxisEmpty(t: int)
    requires 0 <= t
    ensures Axis(-3.84, 3.84, 10.0).Cells() == 0
    ensures ClampInt(t, 0, Axis(-3.84, 3.84, 10.0).Cells() - 1) == -1
  {
    assert (3.84 - -3.84) / 10.0 == 0.768;
  }

  /** With the theta range of the docstring (lines 56-58), 0 to 180 in steps
      of 10, the y axis has 18 cells and both corners of every point lie on
      it. */
  lemma {:induction false} ThetaAxisCorners(p: real)
    ensures Axis(0.0, 180.0, 10.0).Cells() == 18
    ensures var a: GridAxis := Axis(0.0, 180.0, 10.0);
            0 <= CornerAxis(a, p).low <= CornerAxis(a, p).high < 18
  {
    assert (180.0 - 0.0) / 10.0 == 18.0;
  }

  /** The four bilinear deposits with the last one at (high, high). */
  function BilinearDeposits(x: Corner, y: Corner): (ds: seq<Deposit2>)
    ensures |ds| == 4
  {
    [ Deposit2((x.low, y.low), (1.0 - x.f) * (1.0 - y.f)),
      Deposit2((x.low, y.high), (1.0 - x.f) * y.f),
      Deposit2((x.high, y.low), x.f * (1.0 - y.f)),
      Deposit2((x.high, y.high), x.f * y.f) ]
  }

  /** With the fourth deposit at (high, high), the weights add up to one. */
  lemma {:induction false} BilinearMass(x: Corner, y: Corner)
    ensures SumOver(BilinearDeposits(x, y), Weight2) == 1.0
  {
    SumOver4(BilinearDeposits(x, y), Weight2);
  }

  /** And every cell gets the product of its two axis weights. */
  lemma {:induction false} BilinearCellWeights(x: Corner, y: Corner, c: Cell2)
    ensures CellMass2(BilinearDeposits(x, y), c) == AxisWeight(x, c.0) * AxisWeight(y, c.1)
  {
    BilinearPicks(x, y, c);
    assert AxisWeight(x, c.0) == Pick(c.0, x.low, 1.0 - x.f) + Pick(c.0, x.high, x.f);
    assert AxisWeight(y, c.1) == Pick(c.1, y.low, 1.0 - y.f) + Pick(c.1, y.high, y.f);
  }

  /** Each bilinear deposit puts into cell c the product of what each axis
      picks out for c, so together they put in the product of the sums. */
  lemma {:induction false} BilinearPicks(x: Corner, y: Corner, c: Cell2)
    ensures CellMass2(BilinearDeposits(x, y), c)
            == (Pick(c.0, x.low, 1.0 - x.f) + Pick(c.0, x.high, x.f)) * (Pick(c.1, y.low, 1.0 - y.f) + Pick(c.1, y.high, y.f))
  {
    ProductCell(c, BilinearDeposits(x, y), x.low, x.high, y.low, y.high, 1.0 - x.f, x.f, 1.0 - y.f, y.f);
  }

  /** Four deposits whose cells and weights are the products of two pairs put
      into cell c the product of what each pair picks out for c. */
  lemma {:induction false} ProductCell(c: Cell2, ds: seq<Deposit2>, p0: int, p1: int, q0: int, q1: int,
                    u0: real, u1: real, v0: real, v1: real)
    requires |ds| == 4
    requires ds[0] == Deposit2((p0, q0), u0 * v0) && ds[1] == Deposit2((p0, q1), u0 * v1)
    requires ds[2] == Deposit2((p1, q0), u1 * v0) && ds[3] == Deposit2((p1, q1), u1 * v1)
    ensures CellMass2(ds, c) == (Pick(c.0, p0, u0) + Pick(c.0, p1, u1)) * (Pick(c.1, q0, v0) + Pick(c.1, q1, v1))
  {
    var f := WeightAt2(c);
    SumOver4(ds, f);
    DepositShare2(c, p0, q0, u0, v0);
    DepositShare2(c, p0, q1, u0, v1);
    DepositShare2(c, p1, q0, u1, v0);
    DepositShare2(c, p1, q1, u1, v1);
    Expand(CellMass2(ds, c), f(ds[0]), f(ds[1]), f(ds[2]), f(ds[3]),
           Pick(c.0, p0, u0), Pick(c.0, p1, u1), Pick(c.1, q0, v0), Pick(c.1, q1, v1));
  }

  /** Four products that sum to m make up the product of two sums. */
  lemma {:induction false} Expand(m: real, t0: real, t1: real, t2: real, t3: real, a0: real, a1: real, b0: real, b1: real)
    requires m == t0 + t1 + t2 + t3
    requires t0 == a0 * b0 && t1 == a0 * b1 && t2 == a1 * b0 && t3 == a1 * b1
    ensures m == (a0 + a1) * (b0 + b1)
  {
  }

  predicate InGrid3(vox: array3<real>, c: Cell3)
  {
    0 <= c.0 < vox.Length0 && 0 <= c.1 < vox.Length1 && 0 <= c.2 < vox.Length2
  }

  predicate InGrid2(vox: array2<real>, c: Cell2)
  {
    0 <= c.0 < vox.Length0 && 0 <= c.1 < vox.Length1
  }

  /** One `vox[cell] += weight` statement: deposit k of ds, after the
      first k. */
  method Deposit3At(vox: array3<real>, ds: seq<Deposit3>, k: nat)
    requires k < |ds| && InGrid3(vox, ds[k].cell)
    requires forall i, j, l :: InGrid3(vox, (i, j, l)) ==> vox[i, j, l] == CellMass3(ds[..k], (i, j, l))
    modifies vox
    ensures forall i, j, l :: InGrid3(vox, (i, j, l)) ==> vox[i, j, l] == CellMass3(ds[..k + 1], (i, j, l))
  {
    var (ci, cj, cl) := ds[k].cell;
    vox[ci, cj, cl] := vox[ci, cj, cl] + ds[k].weight;
    forall i, j, l | InGrid3(vox, (i, j, l))
      ensures vox[i, j, l] == CellMass3(ds[..k + 1], (i, j, l))
    {
      SumOverStep(ds, k, WeightAt3((i, j, l)));
    }
  }

  method Deposit2At(vox: array2<real>, ds: seq<Deposit2>, k: nat)
    requires k < |ds| && InGrid2(vox, ds[k].cell)
    requires forall i, j :: InGrid2(vox, (i, j)) ==> vox[i, j] == CellMass2(ds[..k], (i, j))
    modifies vox
    ensures forall i, j :: InGrid2(vox, (i, j)) ==> vox[i, j] == CellMass2(ds[..k + 1], (i, j))
  {
    var (ci, cj) := ds[k].cell;
    vox[ci, cj] := vox[ci, cj] + ds[k].weight;
    forall i, j | InGrid2(vox, (i, j))
      ensures vox[i, j] == CellMass2(ds[..k + 1], (i, j))
    {
      SumOverStep(ds, k, WeightAt2((i, j)));
    }
  }

  /** Deposits ds, one `+=` after another, into a grid of zeros. */
  method Spread3(vox: array3<real>, ds: seq<Deposit3>)
    requires forall k :: 0 <= k < |ds| ==> InGrid3(vox, ds[k].cell)
    requires forall i, j, l :: InGrid3(vox, (i, j, l)) ==> vox[i, j, l] == 0.0
    modifies vox
    ensures forall i, j, l :: InGrid3(vox, (i, j, l)) ==> vox[i, j, l] == CellMass3(ds, (i, j, l))
  {
    assert ds[..0] == [];
    for k := 0 to |ds|
      invariant forall i, j, l :: InGrid3(vox, (i, j, l)) ==> vox[i, j, l] == CellMass3(ds[..k], (i, j, l))
    {
      Deposit3At(vox, ds, k);
    }
    assert ds[..|ds|] == ds;
  }

  method Spread2(vox: array2<real>, ds: seq<Deposit2>)
    requires forall k :: 0 <= k < |ds| ==> InGrid2(vox, ds[k].cell)
    requires forall i, j :: InGrid2(vox, (i, j)) ==> vox[i, j] == 0.0
    modifies vox
    ensures forall i, j :: InGrid2(vox, (i, j)) ==> vox[i, j] == CellMass2(ds, (i, j))
  {
    assert ds[..0] == [];
    for k := 0 to |ds|
      invariant forall i, j :: InGrid2(vox, (i, j)) ==> vox[i, j] == CellMass2(ds[..k], (i, j))
    {
      Deposit2At(vox, ds, k);
    }
    assert ds[..|ds|] == ds;
  }

  /** Lines 18-23: the first three columns clamped to the world box, then
      scaled into grid units. */
  method Normalise3(points: array2<real>, ax: GridAxis, ay: GridAxis, az: GridAxis)
    requires points.Length1 >= 3
    modifies points
    ensures forall i, c :: 0 <= i < points.Length0 && 0 <= c < points.Length1 ==>
              points[i, c] == (if c == 0 then WorldCoord(ax, old(points[i, 0]))
                               else if c == 1 then WorldCoord(ay, old(points[i, 1]))
                               else if c == 2 then WorldCoord(az, old(points[i, 2]))
                               else old(points[i, c]))
  {
    ClampWorldColumn(points, 0, ax);
    ClampWorldColumn(points, 1, ay);
    ClampWorldColumn(points, 2, az);
    ScaleColumn(points, 0, ax);
    ScaleColumn(points, 1, ay);
    ScaleColumn(points, 2, az);
  }

  /** Lines 60-63: the same for the first two columns. */
  method Normalise2(points: array2<real>, ax: GridAxis, ay: GridAxis)
    requires points.Length1 >= 2
    modifies points
    ensures forall i, c :: 0 <= i < points.Length0 && 0 <= c < points.Length1 ==>
              points[i, c] == (if c == 0 then WorldCoord(ax, old(points[i, 0]))
                               else if c == 1 then WorldCoord(ay, old(points[i, 1]))
                               else old(points[i, c]))
  {
    ClampWorldColumn(points, 0, ax);
    ClampWorldColumn(points, 1, ay);
    ScaleColumn(points, 0, ax);
    ScaleColumn(points, 1, ay);
  }

  /** `trilinear_interpolation` of a single point: the first three columns
      are clamped and scaled in place, and the returned grid holds the eight
      deposits of the point's corners. */
  method TrilinearInterpolation(points: array2<real>, ax: GridAxis, ay: GridAxis, az: GridAxis)
    returns (vox: array3<real>)
    requires points.Length0 == 1 && points.Length1 >= 3
    modifies points
    ensures forall c :: 0 <= c < points.Length1 ==>
              points[0, c] == (if c == 0 then WorldCoord(ax, old(points[0, 0]))
                               else if c == 1 then WorldCoord(ay, old(points[0, 1]))
                               else if c == 2 then WorldCoord(az, old(points[0, 2]))
                               else old(points[0, c]))
    ensures fresh(vox) && vox.Length0 == ax.Cells() && vox.Length1 == ay.Cells() && vox.Length2 == az.Cells()
    ensures forall i, j, k :: InGrid3(vox, (i, j, k)) ==>
              vox[i, j, k] == CellMass3(TrilinearDeposits(CornerAxis(ax, old(points[0, 0])), CornerAxis(ay, old(points[0, 1])),
                                                          CornerAxis(az, old(points[0, 2]))), (i, j, k))
  {
    Normalise3(points, ax, ay, az);
    var x := CornerOf(points[0, 0], ax.Cells());
    var y := CornerOf(points[0, 1], ay.Cells());
    var z := CornerOf(points[0, 2], az.Cells());
    vox := new real[ax.Cells(), ay.Cells(), az.Cells()]((_, _, _) => 0.0);
    Spread3(vox, TrilinearDeposits(x, y, z));
  }

  /** `bilinear_interpolation` of a single point, as written: the grid holds
      the four deposits of lines 79-82, the last of them a repeat. */
  method BilinearInterpolationAsWritten(points: array2<real>, ax: GridAxis, ay: GridAxis) returns (vox: array2<real>)
    requires points.Length0 == 1 && points.Length1 >= 2
    modifies points
    ensures forall c :: 0 <= c < points.Length1 ==>
              points[0, c] == (if c == 0 then WorldCoord(ax, old(points[0, 0]))
                               else if c == 1 then WorldCoord(ay, old(points[0, 1]))
                               else old(points[0, c]))
    ensures fresh(vox) && vox.Length0 == ax.Cells() && vox.Length1 == ay.Cells()
    ensures forall i, j :: InGrid2(vox, (i, j)) ==>
              vox[i, j] == CellMass2(BilinearDepositsAsWritten(CornerAxis(ax, old(points[0, 0])), CornerAxis(ay, old(points[0, 1]))), (i, j))
  {
    Normalise2(points, ax, ay);
    var x := CornerOf(points[0, 0], ax.Cells());
    var y := CornerOf(points[0, 1], ay.Cells());
    vox := new real[ax.Cells(), ay.Cells()]((_, _) => 0.0);
    Spread2(vox, BilinearDepositsAsWritten(x, y));
  }

  /** `bilinear_interpolation` of a single point with the fourth deposit at
      (high, high). */
  method BilinearInterpolation(points: array2<real>, ax: GridAxis, ay: GridAxis) returns (vox: array2<real>)
    requires points.Length0 == 1 && points.Length1 >= 2
    modifies points
    ensures forall c :: 0 <= c < points.Length1 ==>
              points[0, c] == (if c == 0 then WorldCoord(ax, old(points[0, 0]))
                               else if c == 1 then WorldCoord(ay, old(points[0, 1]))
                               else old(points[0, c]))
    ensures fresh(vox) && vox.Length0 == ax.Cells() && vox.Length1 == ay.Cells()
    ensures forall i, j :: InGrid2(vox, (i, j)) ==>
              vox[i, j] == CellMass2(BilinearDeposits(CornerAxis(ax, old(points[0, 0])), CornerAxis(ay, old(points[0, 1]))), (i, j))
  {
    Normalise2(points, ax, ay);
    var x := CornerOf(points[0, 0], ax.Cells());
    var y := CornerOf(points[0, 1], ay.Cells());
    vox := new real[ax.Cells(), ay.Cells()]((_, _) => 0.0);
    Spread2(vox, BilinearDeposits(x, y));
  }
}
