/** `get_1d_field` and `get_1d_potential_function`: Gaussian splatting of
    points on a line into a grid of v = a.Cells() cells, and the correlation
    of a field with the same windows.  A point's coordinate is scaled into
    grid units, clamped to [0, v-1] and truncated to its integer location;
    every later step depends on the point only through that location. */
module Field1 {
  import opened Sums
  import opened GridIndex
  import opened Kernels
  import opened Tensors

  /** `points.int()` after scaling and clamping: one location per point. */
  function Locations(a: GridAxis, ps: seq<real>): (locs: seq<int>)
    ensures |locs| == |ps|
    ensures forall i :: 0 <= i < |ps| ==> locs[i] == GridLoc(a, ps[i]) && 0 <= locs[i] < a.Cells()
  {
    seq(|ps|, i requires 0 <= i < |ps| => GridLoc(a, ps[i]))
  }

  /** What a point at location loc adds to grid cell g: the kernel entry
      lined up with g inside its window, nothing outside it. */
  function Share(K: seq<real>, k2: nat, v: int, loc: int, g: int): (r: real)
    // a point reaches exactly the cells of the grid within k2 of it
    ensures r != 0.0 ==> 0 <= g < v && loc - k2 <= g <= loc + k2
    // and gives each the kernel entry at its offset from the point, plus k2
    ensures 0 <= g < v && loc - k2 <= g <= loc + k2 ==> r == At1(K, g - loc + k2)
  {
    var w := MakeSpan(loc, k2, v);
    if w.Contains(g) then At1(K, w.Tap(g)) else 0.0
  }

  function ShareAt(K: seq<real>, k2: nat, v: int, g: int): int -> real
  {
    loc => Share(K, k2, v, loc, g)
  }

  /** Cell g of the field of points at locations locs: a zero grid plus
      every point's share. */
  function FieldAt(K: seq<real>, k2: nat, v: int, locs: seq<int>, g: int): real
  {
    SumOver(locs, ShareAt(K, k2, v, g))
  }

  /** `vox[lo:hi+1] += gauss[Tap(lo):Tap(hi)+1]`: the window gets the kernel
      slice, and no other cell changes. */
  method AddKernelWindow(vox: array<real>, K: seq<real>, w: Span)
    requires 0 <= w.lo && w.hi < vox.Length
    requires 0 <= w.Tap(w.lo) && w.Tap(w.hi) < |K|
    modifies vox
    ensures forall g :: 0 <= g < vox.Length ==>
              vox[g] == old(vox[g]) + (if w.Contains(g) then K[w.Tap(g)] else 0.0)
  {
    forall g | w.lo <= g <= w.hi {
      vox[g] := vox[g] + K[w.Tap(g)];
    }
  }

  /** The accumulation loop of `get_1d_field`: a zero grid of v cells, then
      one kernel window per location, in order. */
  method Splat(K: seq<real>, k2: nat, v: int, locs: seq<int>) returns (vox: array<real>)
    requires v >= 1 && |K| >= 2 * k2 + 1
    requires forall i :: 0 <= i < |locs| ==> 0 <= locs[i] < v
    ensures fresh(vox) && vox.Length == v
    ensures forall g :: 0 <= g < v ==> vox[g] == FieldAt(K, k2, v, locs, g)
  {
    vox := new real[v](_ => 0.0);
    var i := 0;
    while i < |locs|
      invariant 0 <= i <= |locs|
      invariant forall g :: 0 <= g < v ==> vox[g] == FieldAt(K, k2, v, locs[..i], g)
    {
      var w := MakeSpan(locs[i], k2, v);
      AddKernelWindow(vox, K, w);
      forall g | 0 <= g < v
        ensures FieldAt(K, k2, v, locs[..i + 1], g) == FieldAt(K, k2, v, locs[..i], g) + Share(K, k2, v, locs[i], g)
      {
        SumOverStep(locs, i, ShareAt(K, k2, v, g));
      }
      i := i + 1;
    }
    assert locs[..i] == locs;
  }

  /** `get_1d_field`: the returned grid holds, in every cell, the field of
      the points' locations.  The caller's points are not written (the
      source rebinds `points` to a new tensor). */
  method Field(points: seq<real>, a: GridAxis, ksize: int, dev: real, exp: real -> real) returns (vox: array<real>)
    requires ksize >= 1 && dev != 0.0
    ensures fresh(vox) && vox.Length == a.Cells()
    ensures forall g :: 0 <= g < vox.Length ==>
              vox[g] == FieldAt(Gaussian1(exp, HalfWidth(ksize) as real, ksize, dev), HalfWidth(ksize), a.Cells(),
                                Locations(a, points), g)
  {
    var k2 := HalfWidth(ksize);
    var gauss := Gaussian1(exp, k2 as real, ksize, dev);
    vox := Splat(gauss, k2, a.Cells(), Locations(a, points));
  }

  /** Cell g of the field times the kernel entry lined up with g in w. */
  function WindowTerm(field: seq<real>, K: seq<real>, w: Span): int -> real
  {
    g => At1(field, g) * At1(K, w.Tap(g))
  }

  /** `torch.sum(field[lo:hi+1] * gauss[Tap(lo):Tap(hi)+1])`. */
  function WindowDot(field: seq<real>, K: seq<real>, w: Span): real
  {
    Sum(w.lo, w.hi, WindowTerm(field, K, w))
  }

  function DotAt(field: seq<real>, K: seq<real>, k2: nat, v: int): int -> real
  {
    loc => WindowDot(field, K, MakeSpan(loc, k2, v))
  }

  /** The potential of field at points with locations locs: every point's
      window sum, added up. */
  function PotentialOf(field: seq<real>, K: seq<real>, k2: nat, v: int, locs: seq<int>): real
  {
    SumOver(locs, DotAt(field, K, k2, v))
  }

  /** `get_1d_potential_function`: the running total ends as the potential
      of the field at the points' locations. */
  method Potential(points: seq<real>, field: seq<real>, a: GridAxis, ksize: int, dev: real, exp: real -> real)
    returns (potential: real)
    requires ksize >= 1 && dev != 0.0
    requires |field| >= a.Cells()
    ensures potential == PotentialOf(field, Gaussian1(exp, HalfWidth(ksize) as real, ksize, dev), HalfWidth(ksize), a.Cells(),
                                     Locations(a, points))
  {
    var v := a.Cells();
    var k2 := HalfWidth(ksize);
    var gauss := Gaussian1(exp, k2 as real, ksize, dev);
    var locations := Locations(a, points);
    potential := 0.0;
    var i := 0;
    while i < |locations|
      invariant 0 <= i <= |locations|
      invariant potential == PotentialOf(field, gauss, k2, v, locations[..i])
    {
      var w := MakeSpan(locations[i], k2, v);
      potential := potential + WindowDot(field, gauss, w);
      SumOverStep(locations, i, DotAt(field, gauss, k2, v));
      i := i + 1;
    }
    assert locations[..i] == locations;
  }

  function KernelEntry(K: seq<real>): int -> real
  {
    i => At1(K, i)
  }

  /** The sum of a kernel's entries. */
  function KernelSum(K: seq<real>): real
  {
    Sum(0, |K| - 1, KernelEntry(K))
  }

  /** Over a field of ones, a window that is not clipped collects the whole
      (odd-sized) kernel. */
  lemma {:induction false} UnclippedOnesWindow(field: seq<real>, K: seq<real>, w: Span)
    requires |K| == 2 * w.k2 + 1
    requires w.lo == w.loc - w.k2 && w.hi == w.loc + w.k2
    requires forall g :: w.lo <= g <= w.hi ==> At1(field, g) == 1.0
    ensures WindowDot(field, K, w) == KernelSum(K)
  {
    var d := w.k2 - w.loc;
    forall g | w.lo <= g <= w.hi ensures WindowTerm(field, K, w)(g) == KernelEntry(K)(g + d) {
      assert At1(field, g) == 1.0;
    }
    SumShift(w.lo, w.hi, d, WindowTerm(field, K, w), KernelEntry(K));
  }

  /** Cell g of the field times the share of a point at loc. */
  function WeightedShare(field: seq<real>, K: seq<real>, k2: nat, v: int, loc: int): int -> real
  {
    g => At1(field, g) * Share(K, k2, v, loc, g)
  }

  /** The window sum of one point is the whole-grid sum of the field times
      that point's share. */
  lemma {:induction false} WindowDotAsGridSum(field: seq<real>, K: seq<real>, k2: nat, v: int, loc: int)
    requires 0 <= loc < v
    ensures WindowDot(field, K, MakeSpan(loc, k2, v)) == Sum(0, v - 1, WeightedShare(field, K, k2, v, loc))
  {
    var w := MakeSpan(loc, k2, v);
    var h := WeightedShare(field, K, k2, v, loc);
    WeightedShareSupport(field, K, k2, v, loc);
    SumRestrict(0, w.lo, w.hi, v - 1, h);
    SumExt(w.lo, w.hi, h, WindowTerm(field, K, w));
  }

  /** Inside the window of a point, its weighted share is the window's term;
      outside, it is zero. */
  lemma {:induction false} WeightedShareSupport(field: seq<real>, K: seq<real>, k2: nat, v: int, loc: int)
    ensures forall g :: 0 <= g <= v - 1 && !(MakeSpan(loc, k2, v).lo <= g <= MakeSpan(loc, k2, v).hi) ==>
              WeightedShare(field, K, k2, v, loc)(g) == 0.0
    ensures forall g :: MakeSpan(loc, k2, v).lo <= g <= MakeSpan(loc, k2, v).hi ==>
              WeightedShare(field, K, k2, v, loc)(g) == WindowTerm(field, K, MakeSpan(loc, k2, v))(g)
  {
    var w := MakeSpan(loc, k2, v);
    forall g | 0 <= g <= v - 1 && !(w.lo <= g <= w.hi) ensures WeightedShare(field, K, k2, v, loc)(g) == 0.0 {
      assert Share(K, k2, v, loc, g) == 0.0;
    }
    forall g | w.lo <= g <= w.hi ensures WeightedShare(field, K, k2, v, loc)(g) == WindowTerm(field, K, w)(g) {
      assert Share(K, k2, v, loc, g) == At1(K, w.Tap(g));
    }
  }

  /** The share of a point at t in cell g, weighted by the field there. */
  function Weighted(field: seq<real>, K: seq<real>, k2: nat, v: int): (int, int) -> real
  {
    (t, g) => At1(field, g) * Share(K, k2, v, t, g)
  }

  /** Cell g of the field times cell g of the splatted grid. */
  function CellProduct(field: seq<real>, K: seq<real>, k2: nat, v: int, locs: seq<int>): int -> real
  {
    g => At1(field, g) * FieldAt(K, k2, v, locs, g)
  }

  lemma {:induction false} PotentialAsRowSums(field: seq<real>, K: seq<real>, k2: nat, v: int, locs: seq<int>)
    requires forall i :: 0 <= i < |locs| ==> 0 <= locs[i] < v
    ensures PotentialOf(field, K, k2, v, locs) == SumOver(locs, RowSums(0, v - 1, Weighted(field, K, k2, v)))
  {
    var F := Weighted(field, K, k2, v);
    forall i | 0 <= i < |locs| ensures DotAt(field, K, k2, v)(locs[i]) == RowSums(0, v - 1, F)(locs[i]) {
      WindowDotAsGridSum(field, K, k2, v, locs[i]);
      SumExt(0, v - 1, WeightedShare(field, K, k2, v, locs[i]), AtItem(F, locs[i]));
    }
    SumOverExt(locs, DotAt(field, K, k2, v), RowSums(0, v - 1, F));
  }

  lemma {:induction false} WeightedColumn(field: seq<real>, K: seq<real>, k2: nat, v: int, locs: seq<int>, g: int)
    ensures ColumnSums(locs, Weighted(field, K, k2, v))(g) == CellProduct(field, K, k2, v, locs)(g)
  {
    var c := At1(field, g);
    forall t ensures AtIndex(Weighted(field, K, k2, v), g)(t) == c * ShareAt(K, k2, v, g)(t) {
    }
    SumOverScale(locs, c, ShareAt(K, k2, v, g), AtIndex(Weighted(field, K, k2, v), g));
  }

  /** Potential and field use the same windows: the potential of a field at
      some points is the inner product of the field with the grid that
      splatting those points produces. */
  lemma {:induction false} PotentialIsCorrelation(field: seq<real>, K: seq<real>, k2: nat, v: int, locs: seq<int>)
    requires forall i :: 0 <= i < |locs| ==> 0 <= locs[i] < v
    ensures PotentialOf(field, K, k2, v, locs) == Sum(0, v - 1, CellProduct(field, K, k2, v, locs))
  {
    var F := Weighted(field, K, k2, v);
    PotentialAsRowSums(field, K, k2, v, locs);
    SumOverSum(locs, 0, v - 1, F);
    forall g | 0 <= g <= v - 1 ensures ColumnSums(locs, F)(g) == CellProduct(field, K, k2, v, locs)(g) {
      WeightedColumn(field, K, k2, v, locs, g);
    }
    SumExt(0, v - 1, ColumnSums(locs, F), CellProduct(field, K, k2, v, locs));
  }

  function FieldCell(K: seq<real>, k2: nat, v: int, locs: seq<int>): int -> real
  {
    g => FieldAt(K, k2, v, locs, g)
  }

  /** A field of ones weights every cell of the splatted grid by one. */
  lemma {:induction false} OnesCellProduct(K: seq<real>, k2: nat, v: int, locs: seq<int>)
    requires v >= 0
    ensures Sum(0, v - 1, CellProduct(seq(v, _ => 1.0), K, k2, v, locs)) == Sum(0, v - 1, FieldCell(K, k2, v, locs))
  {
    var ones := seq(v, _ => 1.0);
    forall g | 0 <= g <= v - 1 ensures CellProduct(ones, K, k2, v, locs)(g) == FieldCell(K, k2, v, locs)(g) {
      assert At1(ones, g) == 1.0;
    }
    SumExt(0, v - 1, CellProduct(ones, K, k2, v, locs), FieldCell(K, k2, v, locs));
  }

  /** Over a field of ones, every unclipped point has potential KernelSum. */
  lemma {:induction false} OnesPotential(K: seq<real>, k2: nat, v: int, locs: seq<int>)
    requires v >= 0 && |K| == 2 * k2 + 1
    requires forall i :: 0 <= i < |locs| ==> k2 <= locs[i] && locs[i] + k2 < v
    ensures PotentialOf(seq(v, _ => 1.0), K, k2, v, locs) == |locs| as real * KernelSum(K)
  {
    var ones := seq(v, _ => 1.0);
    forall i | 0 <= i < |locs| ensures DotAt(ones, K, k2, v)(locs[i]) == KernelSum(K) {
      OnesDot(K, k2, v, locs[i]);
    }
    SumOverConst(locs, KernelSum(K), DotAt(ones, K, k2, v));
  }

  /** Over a field of ones, a point whose window is not clipped has
      potential KernelSum. */
  lemma {:induction false} OnesDot(K: seq<real>, k2: nat, v: int, loc: int)
    requires v >= 0 && |K| == 2 * k2 + 1 && k2 <= loc && loc + k2 < v
    ensures DotAt(seq(v, _ => 1.0), K, k2, v)(loc) == KernelSum(K)
  {
    var ones := seq(v, _ => 1.0);
    var w := MakeSpan(loc, k2, v);
    assert w.lo == loc - k2 && w.hi == loc + k2;
    forall g | w.lo <= g <= w.hi ensures At1(ones, g) == 1.0 {
    }
    UnclippedOnesWindow(ones, K, w);
  }

  /** Total mass: when no point's window is clipped and the kernel has odd
      size, the splatted grid holds exactly one kernel sum per point. */
  lemma {:induction false} FieldMassUnclipped(K: seq<real>, k2: nat, v: int, locs: seq<int>)
    requires v >= 1 && |K| == 2 * k2 + 1
    requires forall i :: 0 <= i < |locs| ==> k2 <= locs[i] && locs[i] + k2 < v
    ensures Sum(0, v - 1, FieldCell(K, k2, v, locs)) == |locs| as real * KernelSum(K)
  {
    PotentialIsCorrelation(seq(v, _ => 1.0), K, k2, v, locs);
    OnesCellProduct(K, k2, v, locs);
    OnesPotential(K, k2, v, locs);
  }

  /** Lines 185-187 when `points` has shape [N, 1], the only shape on which
      `locations[i, 0]` at line 189 is defined: `m * 0` has shape [N] and
      `locations - k2` has shape [N, 1], so `torch.max` broadcasts them to an
      N x N tensor whose row i repeats max(0, locations[i] - k2).  Lines
      256-257 compute the same. */
  function BroadcastLower(locs: seq<int>, k2: nat): seq<seq<int>>
  {
    seq(|locs|, i requires 0 <= i < |locs| => seq(|locs|, _ => Max(0, locs[i] - k2)))
  }

  /** So the slice bound `xmin[i]` at lines 189 and 260 is a tensor of N
      numbers, which is a single number only when there is one point: with
      two or more points the slice fails.  Every one of its numbers is the
      intended bound, the lower end of the point's window. */
  lemma {:induction false} BroadcastLowerShape(locs: seq<int>, k2: nat, v: int, i: int)
    requires 0 <= i < |locs|
    ensures |BroadcastLower(locs, k2)[i]| == |locs|
    ensures |BroadcastLower(locs, k2)[i]| == 1 <==> |locs| == 1
    ensures forall j :: 0 <= j < |locs| ==> BroadcastLower(locs, k2)[i][j] == MakeSpan(locs[i], k2, v).lo
  {
  }

  /** The point's own cell receives the kernel centre, however its window is
      clipped. */
  lemma {:induction false} OwnCellGetsCentre(K: seq<real>, k2: nat, v: int, loc: int)
    requires 0 <= loc < v
    ensures Share(K, k2, v, loc, loc) == At1(K, k2)
  {
    SpanAlignment(loc, k2, v, loc);
  }

  /** With the kernel the source builds, that centre is exp(0). */
  lemma {:induction false} OwnCellPeak(exp: real -> real, ksize: int, dev: real, v: int, loc: int)
    requires ksize >= 1 && dev != 0.0 && 0 <= loc < v
    ensures Share(Gaussian1(exp, HalfWidth(ksize) as real, ksize, dev), HalfWidth(ksize), v, loc, loc) == exp(0.0)
  {
    var k2 := HalfWidth(ksize);
    OwnCellGetsCentre(Gaussian1(exp, k2 as real, ksize, dev), k2, v, loc);
    CentredKernel1(exp, k2, ksize, dev, k2);
  }

  /** The field of two batches of points is the sum of their fields. */
  lemma {:induction false} FieldAdditive(K: seq<real>, k2: nat, v: int, locs: seq<int>, locs': seq<int>, g: int)
    ensures FieldAt(K, k2, v, locs + locs', g) == FieldAt(K, k2, v, locs, g) + FieldAt(K, k2, v, locs', g)
  {
    SumOverConcat(locs, locs', ShareAt(K, k2, v, g));
  }

  /** The field depends only on the multiset of locations, not on the order
      in which the loop visits the points. */
  lemma {:induction false} FieldOrderIndependent(K: seq<real>, k2: nat, v: int, locs: seq<int>, locs': seq<int>, g: int)
    requires multiset(locs) == multiset(locs')
    ensures FieldAt(K, k2, v, locs, g) == FieldAt(K, k2, v, locs', g)
  {
    SumOverPermutation(locs, locs', ShareAt(K, k2, v, g));
  }

  /** Nor does the potential. */
  lemma {:induction false} PotentialOrderIndependent(field: seq<real>, K: seq<real>, k2: nat, v: int, locs: seq<int>, locs': seq<int>)
    requires multiset(locs) == multiset(locs')
    ensures PotentialOf(field, K, k2, v, locs) == PotentialOf(field, K, k2, v, locs')
  {
    SumOverPermutation(locs, locs', DotAt(field, K, k2, v));
  }
}
