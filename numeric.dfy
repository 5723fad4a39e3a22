/** Exact (real-valued) sums, dot products, means and extrema over sequences. */
module Numeric {

  /** Python's built-in `sum`: 0 for the empty sequence. */
  function Sum(s: seq<real>): real
  {
    if s == [] then 0.0 else s[0] + Sum(s[1..])
  }

  lemma {:induction false} SumConcat(a: seq<real>, b: seq<real>)
    ensures Sum(a + b) == Sum(a) + Sum(b)
  {
    if a == [] {
      assert a + b == b;
    } else {
      assert (a + b)[1..] == a[1..] + b;
      SumConcat(a[1..], b);
    }
  }

  /** `np.dot` of two vectors of equal length. */
  function Dot(a: seq<real>, b: seq<real>): real
    requires |a| == |b|
  {
    if a == [] then 0.0 else a[0] * b[0] + Dot(a[1..], b[1..])
  }

  /** Element-wise sum of two vectors. */
  function Add(a: seq<real>, b: seq<real>): (c: seq<real>)
    requires |a| == |b|
    ensures |c| == |a|
  {
    seq(|a|, i requires 0 <= i < |a| => a[i] + b[i])
  }

  /** Every element multiplied by `k`. */
  function Scale(k: real, a: seq<real>): (c: seq<real>)
    ensures |c| == |a|
  {
    seq(|a|, i requires 0 <= i < |a| => k * a[i])
  }

  lemma {:induction false} DotCommutes(a: seq<real>, b: seq<real>)
    requires |a| == |b|
    ensures Dot(a, b) == Dot(b, a)
  {
    if a != [] {
      DotCommutes(a[1..], b[1..]);
    }
  }

  lemma {:induction false} DotAdd(w: seq<real>, a: seq<real>, b: seq<real>)
    requires |w| == |a| == |b|
    ensures Dot(w, Add(a, b)) == Dot(w, a) + Dot(w, b)
  {
    if w != [] {
      assert Add(a, b)[1..] == Add(a[1..], b[1..]);
      DotAdd(w[1..], a[1..], b[1..]);
    }
  }

  lemma {:induction false} DotScale(w: seq<real>, k: real, a: seq<real>)
    requires |w| == |a|
    ensures Dot(w, Scale(k, a)) == k * Dot(w, a)
  {
    if w != [] {
      assert forall i :: 0 <= i < |a| - 1 ==> Scale(k, a)[1..][i] == k * a[i + 1] == Scale(k, a[1..])[i];
      assert Scale(k, a)[1..] == Scale(k, a[1..]);
      DotScale(w[1..], k, a[1..]);
      assert w[0] * (k * a[0]) == k * (w[0] * a[0]);
    }
  }

  lemma {:induction false} DotZeros(w: seq<real>, z: seq<real>)
    requires |w| == |z|
    requires forall i :: 0 <= i < |z| ==> z[i] == 0.0
    ensures Dot(w, z) == 0.0
  {
    if w != [] {
      DotZeros(w[1..], z[1..]);
    }
  }

  /** Arithmetic mean, as `Series.mean` on a series without missing values. */
  function Mean(s: seq<real>): real
    requires |s| > 0
  {
    Sum(s) / (|s| as real)
  }

  function Min(s: seq<real>): (m: real)
    requires |s| > 0
    ensures m in s
    ensures forall x :: x in s ==> m <= x
  {
    if |s| == 1 then s[0]
    else
      var rest := Min(s[1..]);
      assert forall x :: x in s ==> x == s[0] || x in s[1..];
      if s[0] <= rest then s[0] else rest
  }

  function Max(s: seq<real>): (m: real)
    requires |s| > 0
    ensures m in s
    ensures forall x :: x in s ==> x <= m
  {
    if |s| == 1 then s[0]
    else
      var rest := Max(s[1..]);
      assert forall x :: x in s ==> x == s[0] || x in s[1..];
      if s[0] >= rest then s[0] else rest
  }

  /** Multiplying equals by the same factor gives equals. */
  lemma MulEqual(k: real, x: real, y: real)
    requires x == y
    ensures k * x == k * y
  {
  }

  lemma MulDivSwap(a: real, b: real, c: real)
    requires c > 0.0
    ensures a * (b / c) == (a / c) * b
  {
    assert b / c == b * (1.0 / c);
    assert a / c == a * (1.0 / c);
  }

  lemma ScaleWithin(a: real, f: real)
    requires 0.0 <= a && 0.0 <= f <= 1.0
    ensures 0.0 <= a * f <= a
  {
  }

  lemma FloorWithin(h: real, m: nat)
    requires 0.0 <= h <= m as real
    ensures 0 <= h.Floor <= m
    ensures h.Floor as real <= h < h.Floor as real + 1.0
  {
  }

  /** Linear interpolation stays between its end points. */
  lemma InterpolateWithin(a: real, b: real, f: real)
    requires a <= b && 0.0 <= f <= 1.0
    ensures a <= a + f * (b - a) <= b
  {
    ScaleWithin(b - a, f);
    assert 0.0 <= (b - a) * f <= b - a;
    assert (b - a) * f == f * (b - a);
    assert f * (b - a) <= b - a;
  }
}
