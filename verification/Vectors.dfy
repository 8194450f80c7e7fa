/** Finite real vectors: pointwise arithmetic, sums and dot products.
    They stand in for the engine's f32 slices wherever rounding is not the point. */
module Vectors {

  type Vec = seq<real>

  function Add(a: Vec, b: Vec): (r: Vec)
    requires |a| == |b|
    ensures |r| == |a| && forall i :: 0 <= i < |r| ==> r[i] == a[i] + b[i]
  {
    seq(|a|, i requires 0 <= i < |a| => a[i] + b[i])
  }

  function Sub(a: Vec, b: Vec): (r: Vec)
    requires |a| == |b|
    ensures |r| == |a| && forall i :: 0 <= i < |r| ==> r[i] == a[i] - b[i]
  {
    seq(|a|, i requires 0 <= i < |a| => a[i] - b[i])
  }

  function Scale(a: Vec, c: real): (r: Vec)
    ensures |r| == |a| && forall i :: 0 <= i < |r| ==> r[i] == Times(a[i], c)
  {
    seq(|a|, i requires 0 <= i < |a| => Times(a[i], c))
  }

  /** Multiplication as a named function, so that equal factors give equal products without nonlinear reasoning. */
  function Times(x: real, y: real): real {
    x * y
  }

  /** The dot product of the first n coordinates, accumulated left to right. */
  function DotTo(a: Vec, b: Vec, n: nat): real
    requires n <= |a| && n <= |b|
  {
    if n == 0 then 0.0 else DotTo(a, b, n - 1) + Times(a[n - 1], b[n - 1])
  }

  function Dot(a: Vec, b: Vec): real
    requires |a| == |b|
  {
    DotTo(a, b, |a|)
  }

  /** A sum over the numbers below n. */
  function SumOf(n: nat, f: nat -> real): real {
    if n == 0 then 0.0 else SumOf(n - 1, f) + f(n - 1)
  }

  lemma {:induction false} SumOfJoin(m: nat, n: nat, f: nat -> real, g: nat -> real, h: nat -> real)
    requires (forall j: nat :: j < m ==> f(j) == g(j)) && forall j: nat :: j < n ==> f(m + j) == h(j)
    ensures SumOf(m + n, f) == SumOf(m, g) + SumOf(n, h)
  {
    if n > 0 {
      SumOfJoin(m, n - 1, f, g, h);
      assert f(m + (n - 1)) == h(n - 1);
    } else if m > 0 {
      SumOfJoin(m - 1, 0, f, g, h);
    }
  }

  lemma {:induction false} SumOfNegated(n: nat, f: nat -> real, g: nat -> real)
    requires forall j: nat :: j < n ==> f(j) == -g(j)
    ensures SumOf(n, f) == -SumOf(n, g)
  {
    if n > 0 { SumOfNegated(n - 1, f, g); }
  }

  /** A cell, zero beyond the end. */
  function Cell(v: Vec, i: nat): real {
    if i < |v| then v[i] else 0.0
  }

  lemma {:induction false} DotToIsSum(a: Vec, b: Vec, n: nat, f: nat -> real)
    requires n <= |a| && n <= |b| && forall i: nat :: i < n ==> f(i) == Times(a[i], b[i])
    ensures DotTo(a, b, n) == SumOf(n, f)
  {
    if n > 0 { DotToIsSum(a, b, n - 1, f); }
  }

  function SumSq(a: Vec): real {
    Dot(a, a)
  }

  lemma TimesAdd(x: real, y: real, c: real)
    ensures Times(x + y, c) == Times(x, c) + Times(y, c)
    ensures Times(x - y, c) == Times(x, c) - Times(y, c)
  {
  }

  /** Only the first n coordinates matter. */
  lemma {:induction false} DotToPrefix(a: Vec, b: Vec, c: Vec, d: Vec, n: nat)
    requires n <= |a| && n <= |b| && n <= |c| && n <= |d|
    requires forall i :: 0 <= i < n ==> a[i] == c[i] && b[i] == d[i]
    ensures DotTo(a, b, n) == DotTo(c, d, n)
  {
    if n > 0 { DotToPrefix(a, b, c, d, n - 1); }
  }

  lemma {:induction false} DotToConcat(a: Vec, b: Vec, c: Vec, d: Vec, n: nat)
    requires |a| == |c| && |b| == |d| && n <= |b|
    ensures DotTo(a + b, c + d, |a| + n) == DotTo(a, c, |a|) + DotTo(b, d, n)
  {
    if n == 0 {
      DotToPrefix(a + b, c + d, a, c, |a|);
    } else {
      DotToConcat(a, b, c, d, n - 1);
      assert (a + b)[|a| + n - 1] == b[n - 1] && (c + d)[|a| + n - 1] == d[n - 1];
    }
  }

  lemma DotConcat(a: Vec, b: Vec, c: Vec, d: Vec)
    requires |a| == |c| && |b| == |d|
    ensures Dot(a + b, c + d) == Dot(a, c) + Dot(b, d)
  {
    DotToConcat(a, b, c, d, |b|);
  }

  lemma DotSplit(s: Vec, t: Vec, m: nat)
    requires |s| == |t| && m <= |s|
    ensures Dot(s, t) == Dot(s[..m], t[..m]) + Dot(s[m..], t[m..])
  {
    assert s[..m] + s[m..] == s && t[..m] + t[m..] == t;
    DotConcat(s[..m], s[m..], t[..m], t[m..]);
  }

  lemma {:induction false} DotToScale(a: Vec, b: Vec, c: real, n: nat)
    requires |a| == |b| && n <= |a|
    ensures DotTo(Scale(a, c), b, n) == Times(DotTo(a, b, n), c)
    ensures DotTo(a, Scale(b, c), n) == Times(DotTo(a, b, n), c)
  {
    if n > 0 {
      DotToScale(a, b, c, n - 1);
      TimesRotate(a[n - 1], b[n - 1], c);
      TimesAdd(DotTo(a, b, n - 1), Times(a[n - 1], b[n - 1]), c);
    }
  }

  lemma DotScale(a: Vec, b: Vec, c: real)
    requires |a| == |b|
    ensures Dot(Scale(a, c), b) == Times(Dot(a, b), c)
    ensures Dot(a, Scale(b, c)) == Times(Dot(a, b), c)
  {
    DotToScale(a, b, c, |a|);
  }

  lemma TimesRotate(x: real, y: real, c: real)
    ensures Times(Times(x, c), y) == Times(Times(x, y), c)
    ensures Times(x, Times(y, c)) == Times(Times(x, y), c)
  {
  }

  lemma {:induction false} DotToButterfly(a: Vec, b: Vec, c: Vec, d: Vec, n: nat)
    requires |a| == |b| == |c| == |d| && n <= |a|
    ensures DotTo(Add(a, b), Add(c, d), n) + DotTo(Sub(a, b), Sub(c, d), n) == 2.0 * (DotTo(a, c, n) + DotTo(b, d, n))
  {
    if n > 0 {
      DotToButterfly(a, b, c, d, n - 1);
      TimesButterfly(a[n - 1], b[n - 1], c[n - 1], d[n - 1]);
    }
  }

  /** The identity behind one butterfly: sums and differences double the dot product. */
  lemma DotButterfly(a: Vec, b: Vec, c: Vec, d: Vec)
    requires |a| == |b| == |c| == |d|
    ensures Dot(Add(a, b), Add(c, d)) + Dot(Sub(a, b), Sub(c, d)) == 2.0 * (Dot(a, c) + Dot(b, d))
  {
    DotToButterfly(a, b, c, d, |a|);
  }

  lemma TimesButterfly(a: real, b: real, c: real, d: real)
    ensures Times(a + b, c + d) + Times(a - b, c - d) == 2.0 * (Times(a, c) + Times(b, d))
  {
  }

  /** Splitting pointwise operations at m. */
  lemma PointwiseSplit(a: Vec, b: Vec, c: real, m: nat)
    requires |a| == |b| && m <= |a|
    ensures Add(a, b)[..m] == Add(a[..m], b[..m]) && Add(a, b)[m..] == Add(a[m..], b[m..])
    ensures Sub(a, b)[..m] == Sub(a[..m], b[..m]) && Sub(a, b)[m..] == Sub(a[m..], b[m..])
    ensures Scale(a, c)[..m] == Scale(a[..m], c) && Scale(a, c)[m..] == Scale(a[m..], c)
  {
  }

  /** Scaling commutes with sums, differences and scaling. */
  lemma ScaleLinear(a: Vec, b: Vec, c: real, z: real)
    requires |a| == |b|
    ensures Scale(Add(a, b), c) == Add(Scale(a, c), Scale(b, c))
    ensures Scale(Sub(a, b), c) == Sub(Scale(a, c), Scale(b, c))
    ensures Scale(Scale(a, z), c) == Scale(Scale(a, c), z)
  {
    forall i | 0 <= i < |a|
      ensures Scale(Add(a, b), c)[i] == Add(Scale(a, c), Scale(b, c))[i]
      ensures Scale(Sub(a, b), c)[i] == Sub(Scale(a, c), Scale(b, c))[i]
      ensures Scale(Scale(a, z), c)[i] == Scale(Scale(a, c), z)[i]
    {
      TimesAdd(a[i], b[i], c);
      TimesRotate(a[i], z, c);
      TimesRotate(a[i], c, z);
    }
  }

  /** A pointwise bound on a vector bounds its sum of squares. */
  lemma {:induction false} SquaresBound(a: Vec, m: real, n: nat)
    requires m >= 0.0 && n <= |a|
    requires forall i :: 0 <= i < |a| ==> -m <= a[i] <= m
    ensures 0.0 <= DotTo(a, a, n) <= Times(n as real, Times(m, m))
  {
    if n > 0 {
      SquaresBound(a, m, n - 1);
      SquareBound(a[n - 1], m);
      TimesAdd((n - 1) as real, 1.0, Times(m, m));
    }
  }

  lemma SquareBound(x: real, m: real)
    requires -m <= x <= m
    ensures 0.0 <= Times(x, x) <= Times(m, m)
  {
    var p, q := m - x, m + x;
    assert p >= 0.0 && q >= 0.0;
    assert p * q >= 0.0;
    assert p * q == m * m - x * x;
  }
}
