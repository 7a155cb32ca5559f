/** The truncated, unnormalised Gaussian kernels `gaussian_{1,2,3}d_torch`:
    a ksize^D block sampled at integer offsets, each entry exp of minus its
    squared distance from the mean over 2*dev^2.  The exponential is a
    parameter `exp`, so nothing here depends on floating point. */
module Kernels {

  function Sq(x: real): real { x * x }

  /** The kernel's value at squared distance d2 from its mean:
      exp(-d2 / (2 * dev^2)), with the division by 2 * dev^2 taken one
      factor at a time (the same real number). */
  function Profile(exp: real -> real, dev: real, d2: real): real
    requires dev != 0.0
  {
    exp(-(d2 / dev / dev) / 2.0)
  }

  function Gaussian1(exp: real -> real, mean: real, ksize: nat, dev: real): (m: seq<real>)
    requires dev != 0.0
    ensures |m| == ksize
    ensures forall i :: 0 <= i < ksize ==> m[i] == Profile(exp, dev, Sq(i as real - mean))
  {
    seq(ksize, i => Profile(exp, dev, Sq(i as real - mean)))
  }

  /** Entry [i][j] is at squared distance (i-mx)^2 + (j-my)^2 (`meshgrid`
      indexes the first axis by i). */
  function Gaussian2(exp: real -> real, mx: real, my: real, ksize: nat, dev: real): (m: seq<seq<real>>)
    requires dev != 0.0
    ensures |m| == ksize && forall i :: 0 <= i < ksize ==> |m[i]| == ksize
    ensures forall i, j :: 0 <= i < ksize && 0 <= j < ksize ==>
              m[i][j] == Profile(exp, dev, Sq(i as real - mx) + Sq(j as real - my))
  {
    seq(ksize, i => seq(ksize, j => Profile(exp, dev, Sq(i as real - mx) + Sq(j as real - my))))
  }

  /** Row [i][j] of the 3-D kernel. */
  function KernelRow3(exp: real -> real, mx: real, my: real, mz: real, ksize: nat, dev: real, i: int, j: int): (r: seq<real>)
    requires dev != 0.0
    ensures |r| == ksize
    ensures forall k :: 0 <= k < ksize ==> r[k] == Profile(exp, dev, Sq(i as real - mx) + Sq(j as real - my) + Sq(k as real - mz))
  {
    seq(ksize, k => Profile(exp, dev, Sq(i as real - mx) + Sq(j as real - my) + Sq(k as real - mz)))
  }

  /** Plane [i] of the 3-D kernel. */
  function KernelPlane3(exp: real -> real, mx: real, my: real, mz: real, ksize: nat, dev: real, i: int): (p: seq<seq<real>>)
    requires dev != 0.0
    ensures |p| == ksize
    ensures forall j :: 0 <= j < ksize ==> p[j] == KernelRow3(exp, mx, my, mz, ksize, dev, i, j)
  {
    seq(ksize, j => KernelRow3(exp, mx, my, mz, ksize, dev, i, j))
  }

  function Gaussian3(exp: real -> real, mx: real, my: real, mz: real, ksize: nat, dev: real): (m: seq<seq<seq<real>>>)
    requires dev != 0.0
    ensures |m| == ksize
    ensures forall i :: 0 <= i < ksize ==> m[i] == KernelPlane3(exp, mx, my, mz, ksize, dev, i)
  {
    seq(ksize, i => KernelPlane3(exp, mx, my, mz, ksize, dev, i))
  }

  /** Every entry of the 3-D kernel is the profile at its squared distance
      from the mean. */
  lemma {:induction false} Gaussian3Entry(exp: real -> real, mx: real, my: real, mz: real, ksize: nat, dev: real, i: int, j: int, k: int)
    requires dev != 0.0 && 0 <= i < ksize && 0 <= j < ksize && 0 <= k < ksize
    ensures |Gaussian3(exp, mx, my, mz, ksize, dev)[i]| == ksize
    ensures |Gaussian3(exp, mx, my, mz, ksize, dev)[i][j]| == ksize
    ensures Gaussian3(exp, mx, my, mz, ksize, dev)[i][j][k]
            == Profile(exp, dev, Sq(i as real - mx) + Sq(j as real - my) + Sq(k as real - mz))
  {
  }

  /** At distance zero the kernel is exp(0), whatever the deviation. */
  lemma {:induction false} CentreIsExpZero(exp: real -> real, dev: real)
    requires dev != 0.0
    ensures Profile(exp, dev, 0.0) == exp(0.0)
  {
    assert 0.0 / dev == 0.0;
  }

  /** A kernel centred at k2 (as every field and potential function builds
      it) peaks at exp(0) in its centre and is symmetric under reflection
      about k2 (index i against index 2*k2 - i) on each axis. */
  lemma {:induction false} CentredKernel1(exp: real -> real, k2: nat, ksize: nat, dev: real, i: int)
    requires dev != 0.0 && 2 * k2 + 1 <= ksize && 0 <= i <= 2 * k2
    ensures Gaussian1(exp, k2 as real, ksize, dev)[k2] == exp(0.0)
    ensures Gaussian1(exp, k2 as real, ksize, dev)[2 * k2 - i] == Gaussian1(exp, k2 as real, ksize, dev)[i]
  {
    CentreIsExpZero(exp, dev);
    Reflect(k2, i);
  }

  lemma {:induction false} CentredKernel2(exp: real -> real, k2: nat, ksize: nat, dev: real, i: int, j: int)
    requires dev != 0.0 && 2 * k2 + 1 <= ksize && 0 <= i <= 2 * k2 && 0 <= j <= 2 * k2
    ensures Gaussian2(exp, k2 as real, k2 as real, ksize, dev)[k2][k2] == exp(0.0)
    ensures Gaussian2(exp, k2 as real, k2 as real, ksize, dev)[2 * k2 - i][j] == Gaussian2(exp, k2 as real, k2 as real, ksize, dev)[i][j]
    ensures Gaussian2(exp, k2 as real, k2 as real, ksize, dev)[i][2 * k2 - j] == Gaussian2(exp, k2 as real, k2 as real, ksize, dev)[i][j]
  {
    CentreIsExpZero(exp, dev);
    Reflect(k2, i);
    Reflect(k2, j);
  }

  lemma {:induction false} CentredKernel3(exp: real -> real, k2: nat, ksize: nat, dev: real, i: int, j: int, k: int)
    requires dev != 0.0 && 2 * k2 + 1 <= ksize && 0 <= i <= 2 * k2 && 0 <= j <= 2 * k2 && 0 <= k <= 2 * k2
    ensures Gaussian3(exp, k2 as real, k2 as real, k2 as real, ksize, dev)[k2][k2][k2] == exp(0.0)
    ensures Gaussian3(exp, k2 as real, k2 as real, k2 as real, ksize, dev)[2 * k2 - i][j][k]
            == Gaussian3(exp, k2 as real, k2 as real, k2 as real, ksize, dev)[i][j][k]
    ensures Gaussian3(exp, k2 as real, k2 as real, k2 as real, ksize, dev)[i][2 * k2 - j][k]
            == Gaussian3(exp, k2 as real, k2 as real, k2 as real, ksize, dev)[i][j][k]
    ensures Gaussian3(exp, k2 as real, k2 as real, k2 as real, ksize, dev)[i][j][2 * k2 - k]
            == Gaussian3(exp, k2 as real, k2 as real, k2 as real, ksize, dev)[i][j][k]
  {
    var m := k2 as real;
    CentreIsExpZero(exp, dev);
    Reflect(k2, i);
    Reflect(k2, j);
    Reflect(k2, k);
    Gaussian3Entry(exp, m, m, m, ksize, dev, k2, k2, k2);
    Gaussian3Radial(exp, m, m, m, ksize, dev, 2 * k2 - i, j, k, i, j, k);
    Gaussian3Radial(exp, m, m, m, ksize, dev, i, 2 * k2 - j, k, i, j, k);
    Gaussian3Radial(exp, m, m, m, ksize, dev, i, j, 2 * k2 - k, i, j, k);
  }

  lemma {:induction false} Reflect(k2: nat, i: int)
    ensures Sq((2 * k2 - i) as real - k2 as real) == Sq(i as real - k2 as real)
    ensures Sq(k2 as real - k2 as real) == 0.0
  {
    assert (2 * k2 - i) as real - k2 as real == -(i as real - k2 as real);
  }

  /** Two entries of a 3-D kernel at the same squared distance from its mean
      are equal, whatever the exponential is. */
  lemma {:induction false} Gaussian3Radial(exp: real -> real, mx: real, my: real, mz: real, ksize: nat, dev: real,
                        i: nat, j: nat, k: nat, i': nat, j': nat, k': nat)
    requires dev != 0.0
    requires i < ksize && j < ksize && k < ksize && i' < ksize && j' < ksize && k' < ksize
    requires Sq(i as real - mx) + Sq(j as real - my) + Sq(k as real - mz)
             == Sq(i' as real - mx) + Sq(j' as real - my) + Sq(k' as real - mz)
    ensures Gaussian3(exp, mx, my, mz, ksize, dev)[i][j][k] == Gaussian3(exp, mx, my, mz, ksize, dev)[i'][j'][k']
  {
  }
}
