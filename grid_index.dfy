/** Index-space arithmetic shared by every rasteriser in
    utils/cue_to_voxfield.py: float-to-int truncation, clamping, the grid
    extent of an axis, the mapping of a coordinate into grid space, and the
    per-axis window of a truncated kernel centred on a point. */
module GridIndex {

  /** `int(x)` in Python and `.int()` on a tensor: truncation toward zero. */
  function Trunc(x: real): (r: int)
    ensures 0.0 <= x ==> 0 <= r && r as real <= x < r as real + 1.0
    ensures x <= 0.0 ==> r <= 0 && r as real - 1.0 < x <= r as real
  {
    if x >= 0.0 then x.Floor else -((-x).Floor)
  }

  /** `torch.clamp(x, lo, hi)` on a real coordinate: min(max(x, lo), hi). */
  function Clamp(x: real, lo: real, hi: real): (r: real)
    ensures lo <= hi ==> lo <= r <= hi
    ensures lo <= x <= hi ==> r == x
    ensures lo <= hi && x < lo ==> r == lo
    ensures lo <= hi && hi < x ==> r == hi
  {
    var m := if x < lo then lo else x;
    if hi < m then hi else m
  }

  /** `torch.clamp(i, lo, hi)` on an integer index: Clamp on `int`, written
      out again because Dafny has no functions generic over numeric types. */
  function ClampInt(i: int, lo: int, hi: int): (r: int)
    ensures lo <= hi ==> lo <= r <= hi
    ensures lo <= i <= hi ==> r == i
    ensures lo <= hi && i < lo ==> r == lo
    ensures lo <= hi && hi < i ==> r == hi
  {
    var m := if i < lo then lo else i;
    if hi < m then hi else m
  }

  function Max(a: int, b: int): int { if a < b then b else a }
  function Min(a: int, b: int): int { if a < b then a else b }

  /** One axis of a rasterisation call: its world bounds (`xmin`, `xmax`)
      and its voxel size (`vs_x`). */
  datatype Axis = Axis(lower: real, upper: real, voxel: real) {
    /** `int((xmax - xmin) / vs_x)`: the number of cells on the axis. */
    function Cells(): (n: int)
      requires voxel != 0.0
      ensures lower <= upper && 0.0 < voxel ==>
                0 <= n && n as real <= (upper - lower) / voxel < n as real + 1.0
    {
      Trunc((upper - lower) / voxel)
    }
  }

  /** An axis on which a grid can be allocated: positive voxel size and at
      least one cell.  No function of the source checks this; a call that
      breaks it has no meaningful grid. */
  type GridAxis = a: Axis | a.voxel > 0.0 && a.Cells() >= 1 witness Axis(0.0, 1.0, 1.0)

  /** The Gaussian field and potential functions: scale the coordinate into
      grid units first, then clamp it to [0, v-1] in grid units. */
  function GridCoord(a: GridAxis, p: real): (u: real)
    ensures 0.0 <= u <= (a.Cells() - 1) as real
    ensures 0.0 <= (p - a.lower) / a.voxel <= (a.Cells() - 1) as real ==> u == (p - a.lower) / a.voxel
  {
    Clamp((p - a.lower) / a.voxel, 0.0, (a.Cells() - 1) as real)
  }

  /** The integer location of a point: `.int()` of its clamped grid coordinate. */
  function GridLoc(a: GridAxis, p: real): (loc: int)
    ensures 0 <= loc < a.Cells()
    ensures loc as real <= GridCoord(a, p) < loc as real + 1.0
  {
    Trunc(GridCoord(a, p))
  }

  /** The interpolators: clamp the coordinate to [lower, upper] in world
      units first, then scale it.  Unlike GridCoord, the result may reach
      past the last cell index (up to Cells() + 1, exclusive). */
  function WorldCoord(a: GridAxis, p: real): (u: real)
    ensures 0.0 <= u < (a.Cells() + 1) as real
    ensures a.lower <= p <= a.upper ==> u == (p - a.lower) / a.voxel
  {
    var q := Clamp(p, a.lower, a.upper);
    assert q - a.lower <= a.upper - a.lower;
    DivMonotone(q - a.lower, a.upper - a.lower, a.voxel);
    (q - a.lower) / a.voxel
  }

  lemma {:induction false} DivMonotone(x: real, y: real, d: real)
    requires 0.0 <= x <= y && 0.0 < d
    ensures 0.0 <= x / d <= y / d
  {
    assert x / d * d == x && y / d * d == y;
  }

  /** `k2 = int((ksize - 1) / 2)`: the kernel half-width.  The full window
      2*k2+1 fits in the kernel, and uses all of it exactly when ksize is odd. */
  function HalfWidth(ksize: int): (k2: nat)
    requires ksize >= 1
    ensures 2 * k2 + 1 <= ksize <= 2 * k2 + 2
    ensures ksize % 2 == 1 <==> 2 * k2 + 1 == ksize
  {
    Trunc((ksize - 1) as real / 2.0)
  }

  /** The window of one point on one axis: grid cells lo..hi (inclusive) of
      a point at integer location loc, for a kernel of half-width k2. */
  datatype Span = Span(loc: int, k2: nat, lo: int, hi: int) {
    predicate Contains(g: int) { lo <= g <= hi }

    /** The kernel index that lines up with grid cell g. */
    function Tap(g: int): int { g - loc + k2 }
  }

  /** `max(0, loc - k2)` .. `min(v - 1, loc + k2)`, with the matching kernel
      slice `k2 - loc + lo` .. `k2 - loc + hi`.  The bounds are total; they
      describe a window of the grid when loc is a cell of it. */
  function MakeSpan(loc: int, k2: nat, v: int): (w: Span)
    ensures w.loc == loc && w.k2 == k2
    ensures 0 <= loc < v ==> 0 <= w.lo <= loc <= w.hi < v
    ensures w.hi - w.lo <= 2 * k2
    // the kernel slice lies inside the kernel, and has the grid slice's length
    ensures 0 <= loc < v ==> 0 <= w.Tap(w.lo) <= w.Tap(w.hi) <= 2 * k2
    ensures w.Tap(w.hi) - w.Tap(w.lo) == w.hi - w.lo
    // the window is the kernel support cut to the grid
    ensures forall g :: w.Contains(g) <==> 0 <= g < v && loc - k2 <= g <= loc + k2
    // it is unclipped exactly when the support fits in the grid
    ensures (w.lo == loc - k2 && w.hi == loc + k2) <==> (k2 <= loc && loc + k2 < v)
  {
    Span(loc, k2, Max(0, loc - k2), Min(v - 1, loc + k2))
  }

  /** Alignment: every cell of the window receives the kernel entry at its
      offset from the point plus k2, so the point's own cell receives the
      kernel centre however the window is clipped. */
  lemma {:induction false} SpanAlignment(loc: int, k2: nat, v: int, g: int)
    requires 0 <= loc < v
    requires MakeSpan(loc, k2, v).Contains(g)
    ensures 0 <= MakeSpan(loc, k2, v).Tap(g) <= 2 * k2
    ensures MakeSpan(loc, k2, v).Tap(g) - MakeSpan(loc, k2, v).Tap(MakeSpan(loc, k2, v).lo)
            == g - MakeSpan(loc, k2, v).lo
    ensures MakeSpan(loc, k2, v).Contains(loc) && MakeSpan(loc, k2, v).Tap(loc) == k2
  {
  }
}
