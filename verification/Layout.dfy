/** Flat buffers cut into rows of equal length. */
module Layout {
  import opened Common

  /** n rows of h cells. */
  function Span(n: nat, h: nat): nat {
    if n == 0 then 0 else Span(n - 1, h) + h
  }

  lemma {:induction false} SpanIs(n: nat, h: nat)
    ensures Span(n, h) == n * h
  {
    if n > 0 { SpanIs(n - 1, h); }
  }

  /** Whole rows are counted by division. */
  lemma SpanDiv(n: nat, h: nat)
    requires h > 0
    ensures Span(n, h) / h == n
  {
    SpanIs(n, h);
    DivUnique(n * h, h, n, 0);
  }

  lemma SpanFloor(x: nat, h: nat)
    requires h > 0
    ensures Span(x / h, h) <= x
  {
    SpanIs(x / h, h);
  }

  lemma {:induction false} SpanAdd(a: nat, b: nat, h: nat)
    ensures Span(a + b, h) == Span(a, h) + Span(b, h)
  {
    if b > 0 { SpanAdd(a, b - 1, h); }
  }

  lemma SpanMono(a: nat, b: nat, h: nat)
    requires a <= b
    ensures Span(a, h) <= Span(b, h)
  {
    SpanAdd(a, b - a, h);
  }

  /** Row r of a buffer. */
  function Row(b: seq<int>, r: nat, h: nat): (row: seq<int>)
    requires Span(r + 1, h) <= |b|
    ensures |row| == h
  {
    b[Span(r, h)..Span(r, h) + h]
  }

  /** d written over b from position `at` on. */
  function Splice(b: seq<int>, at: nat, d: seq<int>): (r: seq<int>)
    requires at + |d| <= |b|
    ensures |r| == |b|
  {
    b[..at] + d + b[at + |d|..]
  }

  /** The rows [r, r + n). */
  function Rows(b: seq<int>, r: nat, n: nat, h: nat): (rows: seq<int>)
    requires Span(r + n, h) <= |b|
    ensures |rows| == Span(n, h)
  {
    SpanAdd(r, n, h);
    b[Span(r, h)..Span(r + n, h)]
  }

  lemma SliceRow(b: seq<int>, r: nat, n: nat, h: nat, j: nat)
    requires j < n && Span(r + n, h) <= |b|
    ensures Span(j + 1, h) <= Span(n, h) && Span(r + j + 1, h) <= |b|
    ensures Row(Rows(b, r, n, h), j, h) == Row(b, r + j, h)
  {
    SpanMono(j + 1, n, h);
    SpanMono(r + j + 1, r + n, h);
    SpanAdd(r, j, h);
    SpanAdd(r, n, h);
  }

  lemma ConcatRow(a: seq<int>, b: seq<int>, k: nat, h: nat, r: nat)
    requires |a| == Span(k, h) && Span(r + 1, h) <= |a + b|
    ensures r < k ==> Span(r + 1, h) <= |a| && Row(a + b, r, h) == Row(a, r, h)
    ensures r >= k ==> Span(r - k + 1, h) <= |b| && Row(a + b, r, h) == Row(b, r - k, h)
  {
    if r < k {
      SpanMono(r + 1, k, h);
    } else {
      SpanAdd(k, r - k, h);
      SpanAdd(k, r - k + 1, h);
    }
  }

  lemma SplicedPart(b: seq<int>, at: nat, d: seq<int>, lo: nat, hi: nat)
    requires at + |d| <= |b| && at <= lo <= hi <= at + |d|
    ensures Splice(b, at, d)[lo..hi] == d[lo - at..hi - at]
  {
  }

  lemma UnsplicedPart(b: seq<int>, at: nat, d: seq<int>, lo: nat, hi: nat)
    requires at + |d| <= |b| && lo <= hi <= |b| && (hi <= at || at + |d| <= lo)
    ensures Splice(b, at, d)[lo..hi] == b[lo..hi]
  {
  }

  /** Writing n whole rows at row r. */
  function SpliceRows(b: seq<int>, r: nat, n: nat, h: nat, d: seq<int>): (s: seq<int>)
    requires |d| == Span(n, h) && Span(r + n, h) <= |b|
    ensures |s| == |b|
  {
    SpanAdd(r, n, h);
    Splice(b, Span(r, h), d)
  }

  lemma SplicedRow(b: seq<int>, r: nat, n: nat, h: nat, d: seq<int>, i: nat)
    requires |d| == Span(n, h) && Span(r + n, h) <= |b| && Span(i + 1, h) <= |b|
    requires r <= i < r + n
    ensures Span(i - r + 1, h) <= |d| && Row(SpliceRows(b, r, n, h, d), i, h) == Row(d, i - r, h)
  {
    SpanAdd(r, n, h);
    SpanAdd(r, i - r, h);
    SpanMono(i - r + 1, n, h);
    SplicedPart(b, Span(r, h), d, Span(i, h), Span(i, h) + h);
  }

  lemma UnsplicedRow(b: seq<int>, r: nat, n: nat, h: nat, d: seq<int>, i: nat)
    requires |d| == Span(n, h) && Span(r + n, h) <= |b| && Span(i + 1, h) <= |b|
    requires i < r || r + n <= i
    ensures Row(SpliceRows(b, r, n, h, d), i, h) == Row(b, i, h)
  {
    SpanAdd(r, n, h);
    if i < r {
      SpanMono(i + 1, r, h);
    } else {
      SpanMono(r + n, i, h);
    }
    UnsplicedPart(b, Span(r, h), d, Span(i, h), Span(i, h) + h);
  }

  predicate SameRow(a: seq<int>, b: seq<int>, h: nat, r: nat) {
    Span(r + 1, h) <= |a| && Span(r + 1, h) <= |b| && Row(a, r, h) == Row(b, r, h)
  }

  /** Equal rows, equal buffers. */
  lemma {:induction false} RowsDetermine(a: seq<int>, b: seq<int>, h: nat, n: nat)
    requires |a| >= Span(n, h) && |b| >= Span(n, h)
    requires forall r :: 0 <= r < n ==> SameRow(a, b, h, r)
    ensures a[..Span(n, h)] == b[..Span(n, h)]
  {
    if n > 0 {
      SpanMono(n - 1, n, h);
      RowsDetermine(a, b, h, n - 1);
      assert SameRow(a, b, h, n - 1);
      assert a[..Span(n, h)] == a[..Span(n - 1, h)] + Row(a, n - 1, h);
      assert b[..Span(n, h)] == b[..Span(n - 1, h)] + Row(b, n - 1, h);
    }
  }
}
