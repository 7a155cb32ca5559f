/** `get_3d_field` and `get_3d_potential_function`: the 1-D scheme on a
    vx-by-vy-by-vz grid.  Each point's location is a triple of cell indices,
    and its window is the product of one window per axis. */
module Field3 {
  import opened Sums
  import opened GridIndex
  import opened Kernels
  import opened Tensors
  import opened PointTensor

  type Loc3 = (int, int, int)

  /** The location of one point: each coordinate scaled, clamped and
      truncated on its own axis. */
  function Loc(ax: GridAxis, ay: GridAxis, az: GridAxis, p: Point3): (l: Loc3)
    ensures 0 <= l.0 < ax.Cells() && 0 <= l.1 < ay.Cells() && 0 <= l.2 < az.Cells()
  {
    (GridLoc(ax, p.0), GridLoc(ay, p.1), GridLoc(az, p.2))
  }

  /** `points.int()` after scaling and clamping: one location per point. */
  function Locations(ax: GridAxis, ay: GridAxis, az: GridAxis, ps: seq<Point3>): (locs: seq<Loc3>)
    ensures |locs| == |ps|
    ensures forall i :: 0 <= i < |ps| ==> locs[i] == Loc(ax, ay, az, ps[i])
  {
    seq(|ps|, i requires 0 <= i < |ps| => Loc(ax, ay, az, ps[i]))
  }

  /** The grid extent: the number of cells on each axis. */
  datatype Extent = Extent(vx: int, vy: int, vz: int) {
    predicate Contains(gx: int, gy: int, gz: int) {
      0 <= gx < vx && 0 <= gy < vy && 0 <= gz < vz
    }
  }

  /** The per-axis windows of a point at loc. */
  function Windows(k2: nat, e: Extent, loc: Loc3): (Span, Span, Span)
  {
    (MakeSpan(loc.0, k2, e.vx), MakeSpan(loc.1, k2, e.vy), MakeSpan(loc.2, k2, e.vz))
  }

  /** What a point at loc adds to cell (gx, gy, gz): the kernel entry lined
      up with the cell on every axis inside its window, nothing outside it. */
  function Share(K: seq<seq<seq<real>>>, k2: nat, e: Extent, loc: Loc3, gx: int, gy: int, gz: int): (r: real)
    // a point reaches exactly the cells of the grid within k2 of it on every axis
    ensures r != 0.0 ==> e.Contains(gx, gy, gz) && loc.0 - k2 <= gx <= loc.0 + k2 && loc.1 - k2 <= gy <= loc.1 + k2 &&
                         loc.2 - k2 <= gz <= loc.2 + k2
    // and gives each the kernel entry at its offset from the point, plus k2
    ensures (e.Contains(gx, gy, gz) && loc.0 - k2 <= gx <= loc.0 + k2 && loc.1 - k2 <= gy <= loc.1 + k2 &&
             loc.2 - k2 <= gz <= loc.2 + k2) ==> r == At3(K, gx - loc.0 + k2, gy - loc.1 + k2, gz - loc.2 + k2)
  {
    var (wx, wy, wz) := Windows(k2, e, loc);
    if wx.Contains(gx) && wy.Contains(gy) && wz.Contains(gz) then At3(K, wx.Tap(gx), wy.Tap(gy), wz.Tap(gz)) else 0.0
  }

  function ShareAt(K: seq<seq<seq<real>>>, k2: nat, e: Extent, gx: int, gy: int, gz: int): Loc3 -> real
  {
    (loc: Loc3) => Share(K, k2, e, loc, gx, gy, gz)
  }

  /** Cell (gx, gy, gz) of the field of points at locations locs. */
  function FieldAt(K: seq<seq<seq<real>>>, k2: nat, e: Extent, locs: seq<Loc3>, gx: int, gy: int, gz: int): real
  {
    SumOver(locs, ShareAt(K, k2, e, gx, gy, gz))
  }

  /** `vox[x window, y window, z window] += gauss[...]`: the window gets the
      kernel block, and no other cell changes. */
  method AddKernelWindow(vox: array3<real>, K: seq<seq<seq<real>>>, wx: Span, wy: Span, wz: Span)
    requires 0 <= wx.lo && wx.hi < vox.Length0 && 0 <= wy.lo && wy.hi < vox.Length1 && 0 <= wz.lo && wz.hi < vox.Length2
    requires 0 <= wx.Tap(wx.lo) && 0 <= wy.Tap(wy.lo) && 0 <= wz.Tap(wz.lo)
    requires Covers3(K, wx.Tap(wx.hi) + 1, wy.Tap(wy.hi) + 1, wz.Tap(wz.hi) + 1)
    modifies vox
    ensures forall gx, gy, gz :: 0 <= gx < vox.Length0 && 0 <= gy < vox.Length1 && 0 <= gz < vox.Length2 ==>
              vox[gx, gy, gz] == old(vox[gx, gy, gz])
                                 + (if wx.Contains(gx) && wy.Contains(gy) && wz.Contains(gz)
                                    then At3(K, wx.Tap(gx), wy.Tap(gy), wz.Tap(gz)) else 0.0)
  {
    forall gx, gy, gz | wx.lo <= gx <= wx.hi && wy.lo <= gy <= wy.hi && wz.lo <= gz <= wz.hi {
      vox[gx, gy, gz] := vox[gx, gy, gz] + K[wx.Tap(gx)][wy.Tap(gy)][wz.Tap(gz)];
    }
  }

  /** vox holds, over the whole extent, the field of the points at locs. */
  ghost predicate HoldsField(vox: array3<real>, K: seq<seq<seq<real>>>, k2: nat, e: Extent, locs: seq<Loc3>)
    reads vox
  {
    && vox.Length0 == e.vx && vox.Length1 == e.vy && vox.Length2 == e.vz
    && forall gx, gy, gz :: e.Contains(gx, gy, gz) ==> vox[gx, gy, gz] == FieldAt(K, k2, e, locs, gx, gy, gz)
  }

  /** One pass of the accumulation loop: the window of point i is added. */
  method SplatPoint(vox: array3<real>, K: seq<seq<seq<real>>>, k2: nat, e: Extent, locs: seq<Loc3>, i: int)
    requires 0 <= i < |locs| && e.Contains(locs[i].0, locs[i].1, locs[i].2)
    requires Covers3(K, 2 * k2 + 1, 2 * k2 + 1, 2 * k2 + 1)
    requires HoldsField(vox, K, k2, e, locs[..i])
    modifies vox
    ensures HoldsField(vox, K, k2, e, locs[..i + 1])
  {
    var (wx, wy, wz) := Windows(k2, e, locs[i]);
    AddKernelWindow(vox, K, wx, wy, wz);
    FieldStep(K, k2, e, locs, i);
  }

  /** Taking one more point adds that point's share to every cell. */
  lemma {:induction false} FieldStep(K: seq<seq<seq<real>>>, k2: nat, e: Extent, locs: seq<Loc3>, i: int)
    requires 0 <= i < |locs|
    ensures forall gx, gy, gz :: FieldAt(K, k2, e, locs[..i + 1], gx, gy, gz)
              == FieldAt(K, k2, e, locs[..i], gx, gy, gz) + Share(K, k2, e, locs[i], gx, gy, gz)
  {
    forall gx, gy, gz
      ensures FieldAt(K, k2, e, locs[..i + 1], gx, gy, gz)
              == FieldAt(K, k2, e, locs[..i], gx, gy, gz) + Share(K, k2, e, locs[i], gx, gy, gz)
    {
      SumOverStep(locs, i, ShareAt(K, k2, e, gx, gy, gz));
    }
  }

  /** The accumulation loop of `get_3d_field`. */
  method Splat(K: seq<seq<seq<real>>>, k2: nat, e: Extent, locs: seq<Loc3>) returns (vox: array3<real>)
    requires e.vx >= 1 && e.vy >= 1 && e.vz >= 1 && Covers3(K, 2 * k2 + 1, 2 * k2 + 1, 2 * k2 + 1)
    requires forall i :: 0 <= i < |locs| ==> e.Contains(locs[i].0, locs[i].1, locs[i].2)
    ensures fresh(vox) && vox.Length0 == e.vx && vox.Length1 == e.vy && vox.Length2 == e.vz
    ensures forall gx, gy, gz :: e.Contains(gx, gy, gz) ==> vox[gx, gy, gz] == FieldAt(K, k2, e, locs, gx, gy, gz)
  {
    vox := new real[e.vx, e.vy, e.vz]((_, _, _) => 0.0);
    var i := 0;
    while i < |locs|
      invariant 0 <= i <= |locs|
      invariant HoldsField(vox, K, k2, e, locs[..i])
    {
      SplatPoint(vox, K, k2, e, locs, i);
      i := i + 1;
    }
    assert locs[..i] == locs;
  }

  /** Lines 127-136: columns 0, 1 and 2 of the point tensor are scaled into
      grid units and then clamped to the grid, in place; other columns are
      kept. */
  method Normalise(points: array2<real>, ax: GridAxis, ay: GridAxis, az: GridAxis)
    requires points.Length1 >= 3
    modifies points
    ensures forall i, c :: 0 <= i < points.Length0 && 0 <= c < points.Length1 ==>
              points[i, c] == (if c == 0 then GridCoord(ax, old(points[i, 0]))
                               else if c == 1 then GridCoord(ay, old(points[i, 1]))
                               else if c == 2 then GridCoord(az, old(points[i, 2]))
                               else old(points[i, c]))
  {
    ScaleColumn(points, 0, ax);
    ScaleColumn(points, 1, ay);
    ScaleColumn(points, 2, az);
    ClampColumn(points, 0, ax);
    ClampColumn(points, 1, ay);
    ClampColumn(points, 2, az);
  }

  /** `points.int()` on the normalised columns. */
  method TruncateLocations(points: array2<real>) returns (locs: seq<Loc3>)
    requires points.Length1 >= 3
    ensures |locs| == points.Length0
    ensures forall i :: 0 <= i < |locs| ==> locs[i] == (Trunc(points[i, 0]), Trunc(points[i, 1]), Trunc(points[i, 2]))
  {
    locs := seq(points.Length0, i reads points requires 0 <= i < points.Length0 =>
                  (Trunc(points[i, 0]), Trunc(points[i, 1]), Trunc(points[i, 2])));
  }

  function GridExtent(ax: GridAxis, ay: GridAxis, az: GridAxis): Extent
  {
    Extent(ax.Cells(), ay.Cells(), az.Cells())
  }

  function CentredKernel(exp: real -> real, ksize: int, dev: real): seq<seq<seq<real>>>
    requires ksize >= 1 && dev != 0.0
  {
    var k2 := HalfWidth(ksize) as real;
    Gaussian3(exp, k2, k2, k2, ksize, dev)
  }

  /** `get_3d_field`: normalises the caller's points in place and returns the
      field of their locations. */
  method Field(points: array2<real>, ax: GridAxis, ay: GridAxis, az: GridAxis, ksize: int, dev: real, exp: real -> real)
    returns (vox: array3<real>)
    requires points.Length1 >= 3 && ksize >= 1 && dev != 0.0
    modifies points
    ensures forall i, c :: 0 <= i < points.Length0 && 0 <= c < points.Length1 ==>
              points[i, c] == (if c == 0 then GridCoord(ax, old(points[i, 0]))
                               else if c == 1 then GridCoord(ay, old(points[i, 1]))
                               else if c == 2 then GridCoord(az, old(points[i, 2]))
                               else old(points[i, c]))
    ensures fresh(vox) && vox.Length0 == ax.Cells() && vox.Length1 == ay.Cells() && vox.Length2 == az.Cells()
    ensures forall gx, gy, gz :: GridExtent(ax, ay, az).Contains(gx, gy, gz) ==>
              vox[gx, gy, gz] == FieldAt(CentredKernel(exp, ksize, dev), HalfWidth(ksize), GridExtent(ax, ay, az),
                                         Locations(ax, ay, az, old(Rows3(points))), gx, gy, gz)
  {
    ghost var ps := Rows3(points);
    Normalise(points, ax, ay, az);
    var k2 := HalfWidth(ksize);
    var gauss := Gaussian3(exp, k2 as real, k2 as real, k2 as real, ksize, dev);
    var locations := TruncateLocations(points);
    assert locations == Locations(ax, ay, az, ps);
    vox := Splat(gauss, k2, GridExtent(ax, ay, az), locations);
  }

  function WindowCell(field: seq<seq<seq<real>>>, K: seq<seq<seq<real>>>, wx: Span, wy: Span, wz: Span, gx: int, gy: int): int -> real
  {
    gz => At3(field, gx, gy, gz) * At3(K, wx.Tap(gx), wy.Tap(gy), wz.Tap(gz))
  }

  function WindowRow(field: seq<seq<seq<real>>>, K: seq<seq<seq<real>>>, wx: Span, wy: Span, wz: Span, gx: int): int -> real
  {
    gy => Sum(wz.lo, wz.hi, WindowCell(field, K, wx, wy, wz, gx, gy))
  }

  function WindowPlane(field: seq<seq<seq<real>>>, K: seq<seq<seq<real>>>, wx: Span, wy: Span, wz: Span): int -> real
  {
    gx => Sum(wy.lo, wy.hi, WindowRow(field, K, wx, wy, wz, gx))
  }

  /** `torch.sum(field[window] * gauss[kernel slice])`. */
  function WindowDot(field: seq<seq<seq<real>>>, K: seq<seq<seq<real>>>, wx: Span, wy: Span, wz: Span): real
  {
    Sum(wx.lo, wx.hi, WindowPlane(field, K, wx, wy, wz))
  }

  function DotAt(field: seq<seq<seq<real>>>, K: seq<seq<seq<real>>>, k2: nat, e: Extent): Loc3 -> real
  {
    (loc: Loc3) => WindowDot(field, K, Windows(k2, e, loc).0, Windows(k2, e, loc).1, Windows(k2, e, loc).2)
  }

  /** The potential of field at points with locations locs. */
  function PotentialOf(field: seq<seq<seq<real>>>, K: seq<seq<seq<real>>>, k2: nat, e: Extent, locs: seq<Loc3>): real
  {
    SumOver(locs, DotAt(field, K, k2, e))
  }

  /** The accumulation loop of `get_3d_potential_function`. */
  method Correlate(field: seq<seq<seq<real>>>, K: seq<seq<seq<real>>>, k2: nat, e: Extent, locs: seq<Loc3>)
    returns (potential: real)
    ensures potential == PotentialOf(field, K, k2, e, locs)
  {
    potential := 0.0;
    var i := 0;
    while i < |locs|
      invariant 0 <= i <= |locs|
      invariant potential == PotentialOf(field, K, k2, e, locs[..i])
    {
      var (wx, wy, wz) := Windows(k2, e, locs[i]);
      potential := potential + WindowDot(field, K, wx, wy, wz);
      SumOverStep(locs, i, DotAt(field, K, k2, e));
      i := i + 1;
    }
    assert locs[..i] == locs;
  }

  /** `get_3d_potential_function`: normalises the caller's points in place
      and returns the potential of the field at their locations. */
  method Potential(points: array2<real>, field: seq<seq<seq<real>>>, ax: GridAxis, ay: GridAxis, az: GridAxis,
                   ksize: int, dev: real, exp: real -> real)
    returns (potential: real)
    requires points.Length1 >= 3 && ksize >= 1 && dev != 0.0
    requires Covers3(field, ax.Cells(), ay.Cells(), az.Cells())
    modifies points
    ensures forall i, c :: 0 <= i < points.Length0 && 0 <= c < points.Length1 ==>
              points[i, c] == (if c == 0 then GridCoord(ax, old(points[i, 0]))
                               else if c == 1 then GridCoord(ay, old(points[i, 1]))
                               else if c == 2 then GridCoord(az, old(points[i, 2]))
                               else old(points[i, c]))
    ensures potential == PotentialOf(field, CentredKernel(exp, ksize, dev), HalfWidth(ksize), GridExtent(ax, ay, az),
                                     Locations(ax, ay, az, old(Rows3(points))))
  {
    ghost var ps := Rows3(points);
    Normalise(points, ax, ay, az);
    var k2 := HalfWidth(ksize);
    var gauss := Gaussian3(exp, k2 as real, k2 as real, k2 as real, ksize, dev);
    var locations := TruncateLocations(points);
    assert locations == Locations(ax, ay, az, ps);
    potential := Correlate(field, gauss, k2, GridExtent(ax, ay, az), locations);
  }

  function KernelEntry(K: seq<seq<seq<real>>>, i: int, j: int): int -> real
  {
    k => At3(K, i, j, k)
  }

  function KernelRow(K: seq<seq<seq<real>>>, i: int): int -> real
  {
    j => Sum(0, |K| - 1, KernelEntry(K, i, j))
  }

  function KernelPlane(K: seq<seq<seq<real>>>): int -> real
  {
    i => Sum(0, |K| - 1, KernelRow(K, i))
  }

  /** The sum of a cubic kernel's entries. */
  function KernelSum(K: seq<seq<seq<real>>>): real
  {
    Sum(0, |K| - 1, KernelPlane(K))
  }

  /** Along one row, a z-window that is not clipped over ones lines up with
      the kernel's row. */
  lemma {:induction false} UnclippedOnesRow(field: seq<seq<seq<real>>>, K: seq<seq<seq<real>>>, wx: Span, wy: Span, wz: Span,
                         gx: int, gy: int)
    requires wz.lo == wz.loc - wz.k2 && wz.hi == wz.loc + wz.k2 && |K| == 2 * wz.k2 + 1
    requires forall gz :: wz.lo <= gz <= wz.hi ==> At3(field, gx, gy, gz) == 1.0
    ensures WindowRow(field, K, wx, wy, wz, gx)(gy) == KernelRow(K, wx.Tap(gx))(wy.Tap(gy))
  {
    var dz := wz.k2 - wz.loc;
    forall gz | wz.lo <= gz <= wz.hi
      ensures WindowCell(field, K, wx, wy, wz, gx, gy)(gz) == KernelEntry(K, wx.Tap(gx), wy.Tap(gy))(gz + dz)
    {
      assert At3(field, gx, gy, gz) == 1.0;
    }
    SumShift(wz.lo, wz.hi, dz, WindowCell(field, K, wx, wy, wz, gx, gy), KernelEntry(K, wx.Tap(gx), wy.Tap(gy)));
  }

  /** Row by row, one plane of a window that is clipped on neither the y nor
      the z axis lines up with the kernel's plane. */
  lemma {:induction false} UnclippedOnesRows(field: seq<seq<seq<real>>>, K: seq<seq<seq<real>>>, wx: Span, wy: Span, wz: Span,
                          gx: int)
    requires wz.lo == wz.loc - wz.k2 && wz.hi == wz.loc + wz.k2 && |K| == 2 * wz.k2 + 1
    requires forall gy, gz :: wy.lo <= gy <= wy.hi && wz.lo <= gz <= wz.hi ==> At3(field, gx, gy, gz) == 1.0
    ensures forall gy :: wy.lo <= gy <= wy.hi ==>
              WindowRow(field, K, wx, wy, wz, gx)(gy) == KernelRow(K, wx.Tap(gx))(gy + (wy.k2 - wy.loc))
  {
    forall gy | wy.lo <= gy <= wy.hi
      ensures WindowRow(field, K, wx, wy, wz, gx)(gy) == KernelRow(K, wx.Tap(gx))(gy + (wy.k2 - wy.loc))
    {
      UnclippedOnesRow(field, K, wx, wy, wz, gx, gy);
      assert wy.Tap(gy) == gy + (wy.k2 - wy.loc);
    }
  }

  lemma {:induction false} UnclippedOnesPlane(field: seq<seq<seq<real>>>, K: seq<seq<seq<real>>>, wx: Span, wy: Span, wz: Span,
                           gx: int)
    requires wy.k2 == wz.k2 && |K| == 2 * wz.k2 + 1
    requires wy.lo == wy.loc - wy.k2 && wy.hi == wy.loc + wy.k2
    requires wz.lo == wz.loc - wz.k2 && wz.hi == wz.loc + wz.k2
    requires wx.lo <= gx <= wx.hi
    requires OnesOn(field, wx, wy, wz)
    ensures WindowPlane(field, K, wx, wy, wz)(gx) == KernelPlane(K)(gx + (wx.k2 - wx.loc))
  {
    OnesPlane(field, wx, wy, wz, gx);
    UnclippedOnesRows(field, K, wx, wy, wz, gx);
    AlignedRows(field, K, wx, wy, wz, gx);
  }

  /** A plane whose rows line up with the kernel's rows collects the kernel's
      plane. */
  lemma {:induction false} AlignedRows(field: seq<seq<seq<real>>>, K: seq<seq<seq<real>>>, wx: Span, wy: Span, wz: Span,
                    gx: int)
    requires |K| == 2 * wy.k2 + 1 && wy.lo == wy.loc - wy.k2 && wy.hi == wy.loc + wy.k2
    requires forall gy :: wy.lo <= gy <= wy.hi ==>
               WindowRow(field, K, wx, wy, wz, gx)(gy) == KernelRow(K, wx.Tap(gx))(gy + (wy.k2 - wy.loc))
    ensures WindowPlane(field, K, wx, wy, wz)(gx) == KernelPlane(K)(gx + (wx.k2 - wx.loc))
  {
    SumShift(wy.lo, wy.hi, wy.k2 - wy.loc, WindowRow(field, K, wx, wy, wz, gx), KernelRow(K, wx.Tap(gx)));
    assert wy.lo + (wy.k2 - wy.loc) == 0 && wy.hi + (wy.k2 - wy.loc) == |K| - 1;
    assert wx.Tap(gx) == gx + (wx.k2 - wx.loc);
  }

  /** Plane by plane, the first planes of an unclipped window over ones
      collect the matching planes of the kernel. */
  lemma {:induction false} UnclippedOnesPlanes(field: seq<seq<seq<real>>>, K: seq<seq<seq<real>>>, wx: Span, wy: Span, wz: Span,
                            hi: int)
    requires wy.k2 == wz.k2 && |K| == 2 * wz.k2 + 1
    requires wy.lo == wy.loc - wy.k2 && wy.hi == wy.loc + wy.k2
    requires wz.lo == wz.loc - wz.k2 && wz.hi == wz.loc + wz.k2
    requires OnesOn(field, wx, wy, wz) && wx.lo - 1 <= hi <= wx.hi
    ensures Sum(wx.lo, hi, WindowPlane(field, K, wx, wy, wz)) == Sum(wx.Tap(wx.lo), wx.Tap(hi), KernelPlane(K))
    decreases hi - wx.lo
  {
    if wx.lo <= hi {
      UnclippedOnesPlanes(field, K, wx, wy, wz, hi - 1);
      UnclippedOnesPlane(field, K, wx, wy, wz, hi);
      assert wx.Tap(hi) == hi + (wx.k2 - wx.loc) && wx.Tap(hi - 1) == wx.Tap(hi) - 1;
    }
  }

  /** The field is one throughout the window. */
  ghost predicate OnesOn(field: seq<seq<seq<real>>>, wx: Span, wy: Span, wz: Span)
  {
    forall gx, gy, gz :: wx.lo <= gx <= wx.hi && wy.lo <= gy <= wy.hi && wz.lo <= gz <= wz.hi ==>
      At3(field, gx, gy, gz) == 1.0
  }

  /** A field that is one throughout a window is one throughout each of its
      planes. */
  lemma {:induction false} OnesPlane(field: seq<seq<seq<real>>>, wx: Span, wy: Span, wz: Span, gx: int)
    requires wx.lo <= gx <= wx.hi
    requires OnesOn(field, wx, wy, wz)
    ensures forall gy, gz :: wy.lo <= gy <= wy.hi && wz.lo <= gz <= wz.hi ==> At3(field, gx, gy, gz) == 1.0
  {
  }

  /** Over a field of ones, a window that is clipped on no axis collects the
      whole (odd-sized, cubic) kernel. */
  lemma {:induction false} UnclippedOnesWindow(field: seq<seq<seq<real>>>, K: seq<seq<seq<real>>>, wx: Span, wy: Span, wz: Span)
    requires wx.k2 == wy.k2 == wz.k2 && |K| == 2 * wx.k2 + 1
    requires wx.lo == wx.loc - wx.k2 && wx.hi == wx.loc + wx.k2
    requires wy.lo == wy.loc - wy.k2 && wy.hi == wy.loc + wy.k2
    requires wz.lo == wz.loc - wz.k2 && wz.hi == wz.loc + wz.k2
    requires OnesOn(field, wx, wy, wz)
    ensures WindowDot(field, K, wx, wy, wz) == KernelSum(K)
  {
    UnclippedOnesPlanes(field, K, wx, wy, wz, wx.hi);
    assert wx.Tap(wx.lo) == 0 && wx.Tap(wx.hi) == |K| - 1;
  }

  /** The point's own cell receives the kernel centre, however its window is
      clipped. */
  lemma {:induction false} OwnCellGetsCentre(K: seq<seq<seq<real>>>, k2: nat, e: Extent, loc: Loc3)
    requires e.Contains(loc.0, loc.1, loc.2)
    ensures Share(K, k2, e, loc, loc.0, loc.1, loc.2) == At3(K, k2, k2, k2)
  {
    SpanAlignment(loc.0, k2, e.vx, loc.0);
    SpanAlignment(loc.1, k2, e.vy, loc.1);
    SpanAlignment(loc.2, k2, e.vz, loc.2);
  }

  /** With the kernel the source builds, that centre is exp(0). */
  lemma {:induction false} OwnCellPeak(exp: real -> real, ksize: int, dev: real, e: Extent, loc: Loc3)
    requires ksize >= 1 && dev != 0.0 && e.Contains(loc.0, loc.1, loc.2)
    ensures Share(CentredKernel(exp, ksize, dev), HalfWidth(ksize), e, loc, loc.0, loc.1, loc.2) == exp(0.0)
  {
    var k2 := HalfWidth(ksize);
    OwnCellGetsCentre(CentredKernel(exp, ksize, dev), k2, e, loc);
    CentredKernel3(exp, k2, ksize, dev, k2, k2, k2);
  }

  /** The field of two batches of points is the sum of their fields. */
  lemma {:induction false} FieldAdditive(K: seq<seq<seq<real>>>, k2: nat, e: Extent, locs: seq<Loc3>, locs': seq<Loc3>, gx: int, gy: int, gz: int)
    ensures FieldAt(K, k2, e, locs + locs', gx, gy, gz)
            == FieldAt(K, k2, e, locs, gx, gy, gz) + FieldAt(K, k2, e, locs', gx, gy, gz)
  {
    SumOverConcat(locs, locs', ShareAt(K, k2, e, gx, gy, gz));
  }

  /** The field depends only on the multiset of locations. */
  lemma {:induction false} FieldOrderIndependent(K: seq<seq<seq<real>>>, k2: nat, e: Extent, locs: seq<Loc3>, locs': seq<Loc3>,
                              gx: int, gy: int, gz: int)
    requires multiset(locs) == multiset(locs')
    ensures FieldAt(K, k2, e, locs, gx, gy, gz) == FieldAt(K, k2, e, locs', gx, gy, gz)
  {
    SumOverPermutation(locs, locs', ShareAt(K, k2, e, gx, gy, gz));
  }

  /** Nor does the potential. */
  lemma {:induction false} PotentialOrderIndependent(field: seq<seq<seq<real>>>, K: seq<seq<seq<real>>>, k2: nat, e: Extent,
                                  locs: seq<Loc3>, locs': seq<Loc3>)
    requires multiset(locs) == multiset(locs')
    ensures PotentialOf(field, K, k2, e, locs) == PotentialOf(field, K, k2, e, locs')
  {
    SumOverPermutation(locs, locs', DotAt(field, K, k2, e));
  }
}
