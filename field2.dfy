/** `get_2d_field` and `get_2d_potential_function`: the 1-D scheme on a
    vx-by-vy grid.  Each point's location is a pair of cell indices, and its
    window is the product of one window per axis. */
module Field2 {
  import opened Sums
  import opened GridIndex
  import opened Kernels
  import opened Tensors
  import opened PointTensor

  type Loc2 = (int, int)

  /** The location of one point: each coordinate scaled, clamped and
      truncated on its own axis. */
  function Loc(ax: GridAxis, ay: GridAxis, p: Point2): (l: Loc2)
    ensures 0 <= l.0 < ax.Cells() && 0 <= l.1 < ay.Cells()
  {
    (GridLoc(ax, p.0), GridLoc(ay, p.1))
  }

  /** `points.int()` after scaling and clamping: one location per point. */
  function Locations(ax: GridAxis, ay: GridAxis, ps: seq<Point2>): (locs: seq<Loc2>)
    ensures |locs| == |ps|
    ensures forall i :: 0 <= i < |ps| ==> locs[i] == Loc(ax, ay, ps[i])
  {
    seq(|ps|, i requires 0 <= i < |ps| => Loc(ax, ay, ps[i]))
  }

  /** What a point at loc adds to cell (gx, gy): the kernel entry lined up
      with the cell on both axes inside its window, nothing outside it. */
  function Share(K: seq<seq<real>>, k2: nat, vx: int, vy: int, loc: Loc2, gx: int, gy: int): (r: real)
    // a point reaches exactly the cells of the grid within k2 of it on both axes
    ensures r != 0.0 ==> 0 <= gx < vx && loc.0 - k2 <= gx <= loc.0 + k2 && 0 <= gy < vy && loc.1 - k2 <= gy <= loc.1 + k2
    // and gives each the kernel entry at its offset from the point, plus k2
    ensures 0 <= gx < vx && loc.0 - k2 <= gx <= loc.0 + k2 && 0 <= gy < vy && loc.1 - k2 <= gy <= loc.1 + k2 ==>
              r == At2(K, gx - loc.0 + k2, gy - loc.1 + k2)
  {
    var wx := MakeSpan(loc.0, k2, vx);
    var wy := MakeSpan(loc.1, k2, vy);
    if wx.Contains(gx) && wy.Contains(gy) then At2(K, wx.Tap(gx), wy.Tap(gy)) else 0.0
  }

  function ShareAt(K: seq<seq<real>>, k2: nat, vx: int, vy: int, gx: int, gy: int): Loc2 -> real
  {
    (loc: Loc2) => Share(K, k2, vx, vy, loc, gx, gy)
  }

  /** Cell (gx, gy) of the field of points at locations locs. */
  function FieldAt(K: seq<seq<real>>, k2: nat, vx: int, vy: int, locs: seq<Loc2>, gx: int, gy: int): real
  {
    SumOver(locs, ShareAt(K, k2, vx, vy, gx, gy))
  }

  /** `vox[xlo:xhi+1, ylo:yhi+1] += gauss[...]`: the window gets the kernel
      block, and no other cell changes. */
  method AddKernelWindow(vox: array2<real>, K: seq<seq<real>>, wx: Span, wy: Span)
    requires 0 <= wx.lo && wx.hi < vox.Length0 && 0 <= wy.lo && wy.hi < vox.Length1
    requires 0 <= wx.Tap(wx.lo) && 0 <= wy.Tap(wy.lo) && Covers2(K, wx.Tap(wx.hi) + 1, wy.Tap(wy.hi) + 1)
    modifies vox
    ensures forall gx, gy :: 0 <= gx < vox.Length0 && 0 <= gy < vox.Length1 ==>
              vox[gx, gy] == old(vox[gx, gy]) + (if wx.Contains(gx) && wy.Contains(gy) then K[wx.Tap(gx)][wy.Tap(gy)] else 0.0)
  {
    forall gx, gy | wx.lo <= gx <= wx.hi && wy.lo <= gy <= wy.hi {
      vox[gx, gy] := vox[gx, gy] + K[wx.Tap(gx)][wy.Tap(gy)];
    }
  }

  /** The accumulation loop of `get_2d_field`. */
  method Splat(K: seq<seq<real>>, k2: nat, vx: int, vy: int, locs: seq<Loc2>) returns (vox: array2<real>)
    requires vx >= 1 && vy >= 1 && Covers2(K, 2 * k2 + 1, 2 * k2 + 1)
    requires forall i :: 0 <= i < |locs| ==> 0 <= locs[i].0 < vx && 0 <= locs[i].1 < vy
    ensures fresh(vox) && vox.Length0 == vx && vox.Length1 == vy
    ensures forall gx, gy :: 0 <= gx < vx && 0 <= gy < vy ==> vox[gx, gy] == FieldAt(K, k2, vx, vy, locs, gx, gy)
  {
    vox := new real[vx, vy]((_, _) => 0.0);
    var i := 0;
    while i < |locs|
      invariant 0 <= i <= |locs|
      invariant forall gx, gy :: 0 <= gx < vx && 0 <= gy < vy ==> vox[gx, gy] == FieldAt(K, k2, vx, vy, locs[..i], gx, gy)
    {
      var wx := MakeSpan(locs[i].0, k2, vx);
      var wy := MakeSpan(locs[i].1, k2, vy);
      AddKernelWindow(vox, K, wx, wy);
      forall gx, gy | 0 <= gx < vx && 0 <= gy < vy
        ensures FieldAt(K, k2, vx, vy, locs[..i + 1], gx, gy)
                == FieldAt(K, k2, vx, vy, locs[..i], gx, gy) + Share(K, k2, vx, vy, locs[i], gx, gy)
      {
        SumOverStep(locs, i, ShareAt(K, k2, vx, vy, gx, gy));
      }
      i := i + 1;
    }
    assert locs[..i] == locs;
  }

  /** Lines 157-162: columns 0 and 1 of the point tensor are scaled into grid
      units and then clamped to the grid, in place; other columns are kept. */
  method Normalise(points: array2<real>, ax: GridAxis, ay: GridAxis)
    requires points.Length1 >= 2
    modifies points
    ensures forall i, c :: 0 <= i < points.Length0 && 0 <= c < points.Length1 ==>
              points[i, c] == (if c == 0 then GridCoord(ax, old(points[i, 0]))
                               else if c == 1 then GridCoord(ay, old(points[i, 1]))
                               else old(points[i, c]))
  {
    ScaleColumn(points, 0, ax);
    ScaleColumn(points, 1, ay);
    ClampColumn(points, 0, ax);
    ClampColumn(points, 1, ay);
  }

  /** `points.int()` on the normalised columns. */
  method TruncateLocations(points: array2<real>) returns (locs: seq<Loc2>)
    requires points.Length1 >= 2
    ensures |locs| == points.Length0
    ensures forall i :: 0 <= i < |locs| ==> locs[i] == (Trunc(points[i, 0]), Trunc(points[i, 1]))
  {
    locs := seq(points.Length0, i reads points requires 0 <= i < points.Length0 => (Trunc(points[i, 0]), Trunc(points[i, 1])));
  }

  /** `get_2d_field`: normalises the caller's points in place and returns the
      field of their locations. */
  method Field(points: array2<real>, ax: GridAxis, ay: GridAxis, ksize: int, dev: real, exp: real -> real)
    returns (vox: array2<real>)
    requires points.Length1 >= 2 && ksize >= 1 && dev != 0.0
    modifies points
    ensures forall i, c :: 0 <= i < points.Length0 && 0 <= c < points.Length1 ==>
              points[i, c] == (if c == 0 then GridCoord(ax, old(points[i, 0]))
                               else if c == 1 then GridCoord(ay, old(points[i, 1]))
                               else old(points[i, c]))
    ensures fresh(vox) && vox.Length0 == ax.Cells() && vox.Length1 == ay.Cells()
    ensures forall gx, gy :: 0 <= gx < vox.Length0 && 0 <= gy < vox.Length1 ==>
              vox[gx, gy] == FieldAt(Gaussian2(exp, HalfWidth(ksize) as real, HalfWidth(ksize) as real, ksize, dev),
                                     HalfWidth(ksize), ax.Cells(), ay.Cells(), Locations(ax, ay, old(Rows2(points))), gx, gy)
  {
    ghost var ps := Rows2(points);
    Normalise(points, ax, ay);
    var k2 := HalfWidth(ksize);
    var gauss := Gaussian2(exp, k2 as real, k2 as real, ksize, dev);
    var locations := TruncateLocations(points);
    assert locations == Locations(ax, ay, ps);
    vox := Splat(gauss, k2, ax.Cells(), ay.Cells(), locations);
  }

  /** Row gx of a window's products of field and kernel. */
  function WindowCell(field: seq<seq<real>>, K: seq<seq<real>>, wx: Span, wy: Span, gx: int): int -> real
  {
    gy => At2(field, gx, gy) * At2(K, wx.Tap(gx), wy.Tap(gy))
  }

  function WindowRow(field: seq<seq<real>>, K: seq<seq<real>>, wx: Span, wy: Span): int -> real
  {
    gx => Sum(wy.lo, wy.hi, WindowCell(field, K, wx, wy, gx))
  }

  /** `torch.sum(field[window] * gauss[kernel slice])`. */
  function WindowDot(field: seq<seq<real>>, K: seq<seq<real>>, wx: Span, wy: Span): real
  {
    Sum(wx.lo, wx.hi, WindowRow(field, K, wx, wy))
  }

  function DotAt(field: seq<seq<real>>, K: seq<seq<real>>, k2: nat, vx: int, vy: int): Loc2 -> real
  {
    (loc: Loc2) => WindowDot(field, K, MakeSpan(loc.0, k2, vx), MakeSpan(loc.1, k2, vy))
  }

  /** The potential of field at points with locations locs. */
  function PotentialOf(field: seq<seq<real>>, K: seq<seq<real>>, k2: nat, vx: int, vy: int, locs: seq<Loc2>): real
  {
    SumOver(locs, DotAt(field, K, k2, vx, vy))
  }

  /** The accumulation loop of `get_2d_potential_function`. */
  method Correlate(field: seq<seq<real>>, K: seq<seq<real>>, k2: nat, vx: int, vy: int, locs: seq<Loc2>)
    returns (potential: real)
    ensures potential == PotentialOf(field, K, k2, vx, vy, locs)
  {
    potential := 0.0;
    var i := 0;
    while i < |locs|
      invariant 0 <= i <= |locs|
      invariant potential == PotentialOf(field, K, k2, vx, vy, locs[..i])
    {
      var wx := MakeSpan(locs[i].0, k2, vx);
      var wy := MakeSpan(locs[i].1, k2, vy);
      potential := potential + WindowDot(field, K, wx, wy);
      SumOverStep(locs, i, DotAt(field, K, k2, vx, vy));
      i := i + 1;
    }
    assert locs[..i] == locs;
  }

  /** `get_2d_potential_function`: normalises the caller's points in place
      and returns the potential of the field at their locations. */
  method Potential(points: array2<real>, field: seq<seq<real>>, ax: GridAxis, ay: GridAxis, ksize: int, dev: real,
                   exp: real -> real)
    returns (potential: real)
    requires points.Length1 >= 2 && ksize >= 1 && dev != 0.0
    requires Covers2(field, ax.Cells(), ay.Cells())
    modifies points
    ensures forall i, c :: 0 <= i < points.Length0 && 0 <= c < points.Length1 ==>
              points[i, c] == (if c == 0 then GridCoord(ax, old(points[i, 0]))
                               else if c == 1 then GridCoord(ay, old(points[i, 1]))
                               else old(points[i, c]))
    ensures potential == PotentialOf(field, Gaussian2(exp, HalfWidth(ksize) as real, HalfWidth(ksize) as real, ksize, dev),
                                     HalfWidth(ksize), ax.Cells(), ay.Cells(), Locations(ax, ay, old(Rows2(points))))
  {
    ghost var ps := Rows2(points);
    Normalise(points, ax, ay);
    var k2 := HalfWidth(ksize);
    var gauss := Gaussian2(exp, k2 as real, k2 as real, ksize, dev);
    var locations := TruncateLocations(points);
    assert locations == Locations(ax, ay, ps);
    potential := Correlate(field, gauss, k2, ax.Cells(), ay.Cells(), locations);
  }

  function KernelEntry(K: seq<seq<real>>, i: int): int -> real
  {
    j => At2(K, i, j)
  }

  function KernelRow(K: seq<seq<real>>): int -> real
  {
    i => Sum(0, |K| - 1, KernelEntry(K, i))
  }

  /** The sum of a square kernel's entries. */
  function KernelSum(K: seq<seq<real>>): real
  {
    Sum(0, |K| - 1, KernelRow(K))
  }

  /** One row of an unclipped window over ones is the matching kernel row. */
  lemma {:induction false} UnclippedOnesRow(field: seq<seq<real>>, K: seq<seq<real>>, wx: Span, wy: Span, gx: int)
    requires wy.lo == wy.loc - wy.k2 && wy.hi == wy.loc + wy.k2 && |K| == 2 * wy.k2 + 1
    requires forall gy :: wy.lo <= gy <= wy.hi ==> At2(field, gx, gy) == 1.0
    ensures WindowRow(field, K, wx, wy)(gx) == KernelRow(K)(wx.Tap(gx))
  {
    var dy := wy.k2 - wy.loc;
    forall gy | wy.lo <= gy <= wy.hi
      ensures WindowCell(field, K, wx, wy, gx)(gy) == KernelEntry(K, wx.Tap(gx))(gy + dy)
    {
      assert At2(field, gx, gy) == 1.0;
    }
    SumShift(wy.lo, wy.hi, dy, WindowCell(field, K, wx, wy, gx), KernelEntry(K, wx.Tap(gx)));
  }

  /** Row by row, the first rows of an unclipped window over ones collect the
      matching rows of the kernel. */
  lemma {:induction false} UnclippedOnesRows(field: seq<seq<real>>, K: seq<seq<real>>, wx: Span, wy: Span, hi: int)
    requires |K| == 2 * wy.k2 + 1
    requires wy.lo == wy.loc - wy.k2 && wy.hi == wy.loc + wy.k2
    requires forall gx, gy :: wx.lo <= gx <= wx.hi && wy.lo <= gy <= wy.hi ==> At2(field, gx, gy) == 1.0
    requires wx.lo - 1 <= hi <= wx.hi
    ensures Sum(wx.lo, hi, WindowRow(field, K, wx, wy)) == Sum(wx.Tap(wx.lo), wx.Tap(hi), KernelRow(K))
    decreases hi - wx.lo
  {
    if wx.lo <= hi {
      UnclippedOnesRows(field, K, wx, wy, hi - 1);
      UnclippedOnesRow(field, K, wx, wy, hi);
      assert wx.Tap(hi - 1) == wx.Tap(hi) - 1;
    }
  }

  /** Over a field of ones, a window that is clipped on neither axis collects
      the whole (odd-sized, square) kernel. */
  lemma {:induction false} UnclippedOnesWindow(field: seq<seq<real>>, K: seq<seq<real>>, wx: Span, wy: Span)
    requires wx.k2 == wy.k2 && |K| == 2 * wx.k2 + 1
    requires wx.lo == wx.loc - wx.k2 && wx.hi == wx.loc + wx.k2
    requires wy.lo == wy.loc - wy.k2 && wy.hi == wy.loc + wy.k2
    requires forall gx, gy :: wx.lo <= gx <= wx.hi && wy.lo <= gy <= wy.hi ==> At2(field, gx, gy) == 1.0
    ensures WindowDot(field, K, wx, wy) == KernelSum(K)
  {
    UnclippedOnesRows(field, K, wx, wy, wx.hi);
    assert wx.Tap(wx.lo) == 0 && wx.Tap(wx.hi) == |K| - 1;
  }

  /** The point's own cell receives the kernel centre, however its window is
      clipped. */
  lemma {:induction false} OwnCellGetsCentre(K: seq<seq<real>>, k2: nat, vx: int, vy: int, loc: Loc2)
    requires 0 <= loc.0 < vx && 0 <= loc.1 < vy
    ensures Share(K, k2, vx, vy, loc, loc.0, loc.1) == At2(K, k2, k2)
  {
    SpanAlignment(loc.0, k2, vx, loc.0);
    SpanAlignment(loc.1, k2, vy, loc.1);
  }

  /** With the kernel the source builds, that centre is exp(0). */
  lemma {:induction false} OwnCellPeak(exp: real -> real, ksize: int, dev: real, vx: int, vy: int, loc: Loc2)
    requires ksize >= 1 && dev != 0.0 && 0 <= loc.0 < vx && 0 <= loc.1 < vy
    ensures Share(Gaussian2(exp, HalfWidth(ksize) as real, HalfWidth(ksize) as real, ksize, dev), HalfWidth(ksize), vx, vy,
                  loc, loc.0, loc.1) == exp(0.0)
  {
    var k2 := HalfWidth(ksize);
    OwnCellGetsCentre(Gaussian2(exp, k2 as real, k2 as real, ksize, dev), k2, vx, vy, loc);
    CentredKernel2(exp, k2, ksize, dev, k2, k2);
  }

  /** The field of two batches of points is the sum of their fields. */
  lemma {:induction false} FieldAdditive(K: seq<seq<real>>, k2: nat, vx: int, vy: int, locs: seq<Loc2>, locs': seq<Loc2>, gx: int, gy: int)
    ensures FieldAt(K, k2, vx, vy, locs + locs', gx, gy)
            == FieldAt(K, k2, vx, vy, locs, gx, gy) + FieldAt(K, k2, vx, vy, locs', gx, gy)
  {
    SumOverConcat(locs, locs', ShareAt(K, k2, vx, vy, gx, gy));
  }

  /** The field depends only on the multiset of locations. */
  lemma {:induction false} FieldOrderIndependent(K: seq<seq<real>>, k2: nat, vx: int, vy: int, locs: seq<Loc2>, locs': seq<Loc2>, gx: int, gy: int)
    requires multiset(locs) == multiset(locs')
    ensures FieldAt(K, k2, vx, vy, locs, gx, gy) == FieldAt(K, k2, vx, vy, locs', gx, gy)
  {
    SumOverPermutation(locs, locs', ShareAt(K, k2, vx, vy, gx, gy));
  }

  /** Nor does the potential. */
  lemma {:induction false} PotentialOrderIndependent(field: seq<seq<real>>, K: seq<seq<real>>, k2: nat, vx: int, vy: int,
                                  locs: seq<Loc2>, locs': seq<Loc2>)
    requires multiset(locs) == multiset(locs')
    ensures PotentialOf(field, K, k2, vx, vy, locs) == PotentialOf(field, K, k2, vx, vy, locs')
  {
    SumOverPermutation(locs, locs', DotAt(field, K, k2, vx, vy));
  }
}
