/** The in-place coordinate updates that every field and potential function
    applies to its [N, D] point tensor before rasterising: one column at a
    time, first scaled into grid units, later clamped to the grid. */
module PointTensor {
  import opened GridIndex

  /** `points[:, c] = (points[:, c] - lower) / voxel`. */
  method ScaleColumn(points: array2<real>, c: int, a: GridAxis)
    requires 0 <= c < points.Length1
    modifies points
    ensures forall i, d :: 0 <= i < points.Length0 && 0 <= d < points.Length1 ==>
              points[i, d] == (if d == c then (old(points[i, c]) - a.lower) / a.voxel else old(points[i, d]))
  {
    forall i | 0 <= i < points.Length0 {
      points[i, c] := (points[i, c] - a.lower) / a.voxel;
    }
  }

  /** `points[:, c] = torch.clamp(points[:, c], 0, v - 1)`. */
  method ClampColumn(points: array2<real>, c: int, a: GridAxis)
    requires 0 <= c < points.Length1
    modifies points
    ensures forall i, d :: 0 <= i < points.Length0 && 0 <= d < points.Length1 ==>
              points[i, d] == (if d == c then Clamp(old(points[i, c]), 0.0, (a.Cells() - 1) as real) else old(points[i, d]))
  {
    forall i | 0 <= i < points.Length0 {
      points[i, c] := Clamp(points[i, c], 0.0, (a.Cells() - 1) as real);
    }
  }

  /** `points[:, c] = torch.clamp(points[:, c], lower, upper)`: the
      interpolators clamp in world units before scaling. */
  method ClampWorldColumn(points: array2<real>, c: int, a: GridAxis)
    requires 0 <= c < points.Length1
    modifies points
    ensures forall i, d :: 0 <= i < points.Length0 && 0 <= d < points.Length1 ==>
              points[i, d] == (if d == c then Clamp(old(points[i, c]), a.lower, a.upper) else old(points[i, d]))
  {
    forall i | 0 <= i < points.Length0 {
      points[i, c] := Clamp(points[i, c], a.lower, a.upper);
    }
  }
}
