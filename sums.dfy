/** Finite sums of real values: over an integer range (what a tensor `sum`
    over a slice computes) and over a sequence of items (what a per-item
    accumulation loop computes). */
module Sums {

  /** f(lo) + ... + f(hi); zero when the range is empty. */
  function Sum(lo: int, hi: int, f: int -> real): real
    decreases hi - lo
  {
    if hi < lo then 0.0 else Sum(lo, hi - 1, f) + f(hi)
  }

  /** Re-indexing a range by a constant offset does not change its sum. */
  lemma {:induction false} SumShift(lo: int, hi: int, d: int, f: int -> real, g: int -> real)
    requires forall i :: lo <= i <= hi ==> f(i) == g(i + d)
    ensures Sum(lo, hi, f) == Sum(lo + d, hi + d, g)
    decreases hi - lo
  {
    if lo <= hi {
      SumShift(lo, hi - 1, d, f, g);
    }
  }

  /** Sums of pointwise equal terms are equal. */
  lemma {:induction false} SumExt(lo: int, hi: int, f: int -> real, g: int -> real)
    requires forall i :: lo <= i <= hi ==> f(i) == g(i)
    ensures Sum(lo, hi, f) == Sum(lo, hi, g)
    decreases hi - lo
  {
    if lo <= hi {
      SumExt(lo, hi - 1, f, g);
    }
  }

  /** A sum of pointwise sums is the sum of the two sums. */
  lemma {:induction false} SumAdd(lo: int, hi: int, f: int -> real, g: int -> real, h: int -> real)
    requires forall i :: lo <= i <= hi ==> h(i) == f(i) + g(i)
    ensures Sum(lo, hi, h) == Sum(lo, hi, f) + Sum(lo, hi, g)
    decreases hi - lo
  {
    if lo <= hi {
      SumAdd(lo, hi - 1, f, g, h);
    }
  }

  /** Splitting a range after m splits its sum. */
  lemma {:induction false} SumSplit(lo: int, m: int, hi: int, f: int -> real)
    requires lo - 1 <= m <= hi
    ensures Sum(lo, hi, f) == Sum(lo, m, f) + Sum(m + 1, hi, f)
    decreases hi - m
  {
    if m < hi {
      SumSplit(lo, m, hi - 1, f);
    }
  }

  /** Terms that are zero contribute nothing. */
  lemma {:induction false} SumZero(lo: int, hi: int, f: int -> real)
    requires forall i :: lo <= i <= hi ==> f(i) == 0.0
    ensures Sum(lo, hi, f) == 0.0
    decreases hi - lo
  {
    if lo <= hi {
      SumZero(lo, hi - 1, f);
    }
  }

  /** A sum over a range equals the sum over a sub-range outside which every
      term is zero. */
  lemma {:induction false} SumRestrict(lo: int, a: int, b: int, hi: int, f: int -> real)
    requires lo <= a && a - 1 <= b && b <= hi
    requires forall i :: lo <= i <= hi && !(a <= i <= b) ==> f(i) == 0.0
    ensures Sum(lo, hi, f) == Sum(a, b, f)
  {
    SumSplit(lo, a - 1, hi, f);
    SumSplit(a, b, hi, f);
    SumZero(lo, a - 1, f);
    SumZero(b + 1, hi, f);
  }

  /** f(s[0]) + ... + f(s[|s|-1]), accumulated from the front as a loop does. */
  function SumOver<T>(s: seq<T>, f: T -> real): real
  {
    if |s| == 0 then 0.0 else SumOver(s[..|s| - 1], f) + f(s[|s| - 1])
  }

  /** One more item adds its own term: the step of an accumulation loop. */
  lemma {:induction false} SumOverStep<T>(s: seq<T>, i: nat, f: T -> real)
    requires i < |s|
    ensures SumOver(s[..i + 1], f) == SumOver(s[..i], f) + f(s[i])
  {
    assert s[..i + 1][..i] == s[..i];
  }

  lemma {:induction false} SumOverConcat<T>(a: seq<T>, b: seq<T>, f: T -> real)
    ensures SumOver(a + b, f) == SumOver(a, f) + SumOver(b, f)
    decreases |b|
  {
    if |b| > 0 {
      assert (a + b)[..|a + b| - 1] == a + b[..|b| - 1];
      SumOverConcat(a, b[..|b| - 1], f);
    } else {
      assert a + b == a;
    }
  }

  /** Removing the item at position j removes exactly its term. */
  lemma {:induction false} SumOverRemove<T>(s: seq<T>, j: nat, f: T -> real)
    requires j < |s|
    ensures SumOver(s, f) == SumOver(s[..j] + s[j + 1..], f) + f(s[j])
  {
    var pre, post := s[..j], s[j + 1..];
    assert s == (pre + [s[j]]) + post;
    SumOverConcat(pre + [s[j]], post, f);
    SumOverConcat(pre, [s[j]], f);
    assert SumOver([s[j]], f) == f(s[j]) by {
      assert [s[j]][..0] == [];
    }
    SumOverConcat(pre, post, f);
  }

  /** The accumulated sum does not depend on the order of the items. */
  lemma {:induction false} SumOverPermutation<T>(s: seq<T>, t: seq<T>, f: T -> real)
    requires multiset(s) == multiset(t)
    ensures SumOver(s, f) == SumOver(t, f)
    decreases |s|
  {
    if |s| == 0 {
      assert |t| == |multiset(t)| == 0;
    } else {
      var j := MatchLast(s, t);
      SumOverPermutation(s[..|s| - 1], t[..j] + t[j + 1..], f);
      SumOverRemove(t, j, f);
    }
  }

  /** The last item of s occurs in any permutation t of s, and what is left of
      either once it is taken out is still a permutation of the other. */
  lemma {:induction false} MatchLast<T>(s: seq<T>, t: seq<T>) returns (j: nat)
    requires |s| > 0 && multiset(s) == multiset(t)
    ensures j < |t| && t[j] == s[|s| - 1]
    ensures multiset(s[..|s| - 1]) == multiset(t[..j] + t[j + 1..])
  {
    var n := |s| - 1;
    TakeOut(s, n);
    assert s[n] in multiset(t);
    j :| 0 <= j < |t| && t[j] == s[n];
    TakeOut(t, j);
    assert s[..n] + s[n + 1..] == s[..n];
    assert multiset(s[..n]) == multiset(s) - multiset{s[n]} == multiset(t[..j] + t[j + 1..]);
  }

  /** Taking item j out of s takes one copy of it out of s's multiset. */
  lemma {:induction false} TakeOut<T>(s: seq<T>, j: nat)
    requires j < |s|
    ensures multiset(s) == multiset(s[..j] + s[j + 1..]) + multiset{s[j]}
  {
    assert s == s[..j] + [s[j]] + s[j + 1..];
  }

  /** Column i of a table F indexed by items and integers. */
  function AtIndex<T>(F: (T, int) -> real, i: int): T -> real
  {
    t => F(t, i)
  }

  /** Row t of a table F indexed by items and integers. */
  function AtItem<T>(F: (T, int) -> real, t: T): int -> real
  {
    i => F(t, i)
  }

  /** Index i maps to the accumulation of column i over the items s. */
  function ColumnSums<T>(s: seq<T>, F: (T, int) -> real): int -> real
  {
    i => SumOver(s, AtIndex(F, i))
  }

  /** Item t maps to the sum of its row over lo..hi. */
  function RowSums<T>(lo: int, hi: int, F: (T, int) -> real): T -> real
  {
    t => Sum(lo, hi, AtItem(F, t))
  }

  /** An accumulation over items commutes with a sum over a range. */
  lemma {:induction false} SumOverSum<T>(s: seq<T>, lo: int, hi: int, F: (T, int) -> real)
    ensures Sum(lo, hi, ColumnSums(s, F)) == SumOver(s, RowSums(lo, hi, F))
    decreases |s|
  {
    if |s| > 0 {
      var n := |s| - 1;
      SumOverSum(s[..n], lo, hi, F);
      SumAdd(lo, hi, ColumnSums(s[..n], F), AtItem(F, s[n]), ColumnSums(s, F));
    } else {
      SumZero(lo, hi, ColumnSums(s, F));
    }
  }

  /** Accumulations of pointwise equal terms are equal. */
  lemma {:induction false} SumOverExt<T>(s: seq<T>, f: T -> real, g: T -> real)
    requires forall i :: 0 <= i < |s| ==> f(s[i]) == g(s[i])
    ensures SumOver(s, f) == SumOver(s, g)
    decreases |s|
  {
    if |s| > 0 {
      SumOverExt(s[..|s| - 1], f, g);
    }
  }

  /** A common factor comes out of an accumulation. */
  lemma {:induction false} SumOverScale<T>(s: seq<T>, c: real, f: T -> real, g: T -> real)
    requires forall t :: g(t) == c * f(t)
    ensures SumOver(s, g) == c * SumOver(s, f)
    decreases |s|
  {
    if |s| > 0 {
      SumOverScale(s[..|s| - 1], c, f, g);
    }
  }

  /** Accumulating the same value n times gives n times that value. */
  lemma {:induction false} SumOverConst<T>(s: seq<T>, c: real, f: T -> real)
    requires forall i :: 0 <= i < |s| ==> f(s[i]) == c
    ensures SumOver(s, f) == |s| as real * c
    decreases |s|
  {
    if |s| > 0 {
      SumOverConst(s[..|s| - 1], c, f);
    }
  }

  /** A four-item accumulation written out. */
  lemma {:induction false} SumOver4<T>(s: seq<T>, f: T -> real)
    requires |s| == 4
    ensures SumOver(s, f) == f(s[0]) + f(s[1]) + f(s[2]) + f(s[3])
  {
    assert s[..0] == [];
    SumOverStep(s, 0, f);
    SumOverStep(s, 1, f);
    SumOverStep(s, 2, f);
    SumOverStep(s, 3, f);
    assert s[..4] == s;
  }

  /** An eight-item accumulation written out. */
  lemma {:induction false} SumOver8<T>(s: seq<T>, f: T -> real)
    requires |s| == 8
    ensures SumOver(s, f) == f(s[0]) + f(s[1]) + f(s[2]) + f(s[3]) + f(s[4]) + f(s[5]) + f(s[6]) + f(s[7])
  {
    assert s[..0] == [];
    SumOverStep(s, 0, f);
    SumOverStep(s, 1, f);
    SumOverStep(s, 2, f);
    SumOverStep(s, 3, f);
    SumOverStep(s, 4, f);
    SumOverStep(s, 5, f);
    SumOverStep(s, 6, f);
    SumOverStep(s, 7, f);
    assert s[..8] == s;
  }
}
