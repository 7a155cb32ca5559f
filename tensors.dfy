/** Dense tensors as values: points, fields and kernels as (nested)
    sequences of reals, with total element accessors that read zero outside
    the tensor, so that sums over index ranges can be written as plain
    functions of an index. */
module Tensors {

  type Point2 = (real, real)
  type Point3 = (real, real, real)

  function At1(t: seq<real>, i: int): real
  {
    if 0 <= i < |t| then t[i] else 0.0
  }

  function At2(t: seq<seq<real>>, i: int, j: int): real
  {
    if 0 <= i < |t| && 0 <= j < |t[i]| then t[i][j] else 0.0
  }

  function At3(t: seq<seq<seq<real>>>, i: int, j: int, k: int): real
  {
    if 0 <= i < |t| && 0 <= j < |t[i]| && 0 <= k < |t[i][j]| then t[i][j][k] else 0.0
  }

  /** t has at least the cells [0, a) x [0, b); slicing a window of the grid
      out of it never runs off its end. */
  ghost predicate Covers2(t: seq<seq<real>>, a: int, b: int)
  {
    |t| >= a && forall i :: 0 <= i < a ==> |t[i]| >= b
  }

  ghost predicate Covers3(t: seq<seq<seq<real>>>, a: int, b: int, c: int)
  {
    |t| >= a && forall i :: 0 <= i < a ==> |t[i]| >= b && forall j :: 0 <= j < b ==> |t[i][j]| >= c
  }

  /** The first two columns of an [N, D] point tensor, row by row. */
  function Rows2(points: array2<real>): (ps: seq<Point2>)
    requires points.Length1 >= 2
    reads points
    ensures |ps| == points.Length0
    ensures forall i :: 0 <= i < |ps| ==> ps[i] == (points[i, 0], points[i, 1])
  {
    seq(points.Length0, i reads points requires 0 <= i < points.Length0 => (points[i, 0], points[i, 1]))
  }

  /** The first three columns of an [N, D] point tensor, row by row. */
  function Rows3(points: array2<real>): (ps: seq<Point3>)
    requires points.Length1 >= 3
    reads points
    ensures |ps| == points.Length0
    ensures forall i :: 0 <= i < |ps| ==> ps[i] == (points[i, 0], points[i, 1], points[i, 2])
  {
    seq(points.Length0, i reads points requires 0 <= i < points.Length0 => (points[i, 0], points[i, 1], points[i, 2]))
  }
}
