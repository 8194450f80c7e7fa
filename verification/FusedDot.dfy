/** Row kernels that never decode a row: each gives the dot product with the decoded values. */
module FusedDot {
  import opened Bytes
  import opened Layout
  import opened QuantBlocks
  import opened QuantTypes
  import opened Vectors

  // ---------- Q4_K ----------

  function Reals(q: seq<nat>): (v: Vec)
    ensures |v| == |q|
  {
    seq(|q|, l requires 0 <= l < |q| => q[l] as real)
  }

  function SumTo(x: Vec, n: nat): real
    requires n <= |x|
  {
    if n == 0 then 0.0 else SumTo(x, n - 1) + x[n - 1]
  }

  /** Scale and minimum can be applied after the sums. */
  lemma {:induction false} AffineDot(q: seq<nat>, scale: real, min: real, x: Vec, n: nat)
    requires |q| == |x| && n <= |q|
    ensures DotTo(Affine(q, scale, min), x, n) == Times(scale, DotTo(Reals(q), x, n)) - Times(min, SumTo(x, n))
  {
    if n > 0 {
      AffineDot(q, scale, min, x, n - 1);
      OneAffine(q[n - 1] as real, scale, min, x[n - 1], DotTo(Reals(q), x, n - 1), SumTo(x, n - 1));
    }
  }

  lemma OneAffine(q: real, scale: real, min: real, x: real, dot: real, sum: real)
    ensures Times(Times(scale, q) - min, x) == Times(scale, dot + Times(q, x)) - Times(scale, dot) - (Times(min, sum + x) - Times(min, sum))
  {
  }

  /** What one group of 64 adds: four running sums, combined once. */
  method GroupTerm(q: Data, d1: real, m1: real, d2: real, m2: real, x: Vec) returns (term: real)
    requires |q| == 32 && |x| == 64
    ensures term == Dot(Affine(LowNibbles(q), d1, m1) + Affine(HighNibbles(q), d2, m2), x)
  {
    ghost var low, high := Reals(LowNibbles(q)), Reals(HighNibbles(q));
    var x0, x1 := x[..32], x[32..];
    var sumQ0, sumX0, sumQ1, sumX1 := 0.0, 0.0, 0.0, 0.0;
    for l := 0 to 32
      invariant sumQ0 == DotTo(low, x0, l) && sumX0 == SumTo(x0, l)
      invariant sumQ1 == DotTo(high, x1, l) && sumX1 == SumTo(x1, l)
    {
      sumQ0 := sumQ0 + Times((q[l] % 16) as real, x0[l]);
      sumX0 := sumX0 + x0[l];
      sumQ1 := sumQ1 + Times((q[l] / 16) as real, x1[l]);
      sumX1 := sumX1 + x1[l];
    }
    term := Times(d1, sumQ0) - Times(m1, sumX0) + Times(d2, sumQ1) - Times(m2, sumX1);
    AffineDot(LowNibbles(q), d1, m1, x0, 32);
    AffineDot(HighNibbles(q), d2, m2, x1, 32);
    assert x == x0 + x1;
    DotConcat(Affine(LowNibbles(q), d1, m1), Affine(HighNibbles(q), d2, m2), x0, x1);
  }

  /** The prefix dot product grows by the next part's. */
  lemma DotGrows(v: Vec, w: Vec, x: Vec, p: nat, q: nat)
    requires |v| == p && q == p + |w| && q <= |x|
    ensures Dot(v + w, x[..q]) == Dot(v, x[..p]) + Dot(w, x[p..q])
  {
    assert x[..q] == x[..p] + x[p..q];
    DotConcat(v, w, x[..p], x[p..q]);
  }

  method AddBlock4(total: real, block: Data, x: Vec) returns (r: real)
    requires |block| == 144 && |x| == 256
    ensures r == total + Dot(Values4(block, 4), x)
  {
    r := total;
    for j := 0 to 4
      invariant r == total + GroupsDot(block, x, j)
    {
      var term := NextGroupTerm(block, x, j, j + 1);
      r := r + term;
    }
    assert x[..256] == x;
  }

  function GroupsDot(block: Data, x: Vec, j: nat): real
    requires |block| == 144 && |x| == 256 && j <= 4
  {
    Dot(Values4(block, j), x[..64 * j])
  }

  method NextGroupTerm(block: Data, x: Vec, j: nat, next: nat) returns (term: real)
    requires |block| == 144 && |x| == 256 && j < 4 && next == j + 1
    ensures GroupsDot(block, x, next) == GroupsDot(block, x, j) + term
  {
    var even, odd, p, q := 2 * j, 2 * j + 1, 64 * j, 64 * j + 64;
    term := GroupTerm(Group4(block, j), Scale4(block, even), Min4(block, even), Scale4(block, odd), Min4(block, odd), x[p..q]);
    DotGrows(Values4(block, j), GroupValues4(block, j), x, p, q);
  }

  // ---------- Q8_0 ----------

  function Signeds(q: Data): (v: Vec)
    ensures |v| == |q|
  {
    seq(|q|, i requires 0 <= i < |q| => Signed(q[i]) as real)
  }

  method AddBlock8(total: real, block: Data, x: Vec) returns (r: real)
    requires |block| == 34 && |x| == 32
    ensures r == total + Dot(Values8(block), x)
  {
    var d := Half(block[0], block[1]);
    var qs := block[2..34];
    var sum := 0.0;
    for j := 0 to 32
      invariant sum == DotTo(Signeds(qs), x, j)
    {
      sum := sum + Times(Signed(qs[j]) as real, x[j]);
    }
    r := total + Times(sum, d);
    assert Values8(block) == Scale(Signeds(qs), d);
    DotScale(Signeds(qs), x, d);
  }

  // ---------- Q6_K ----------

  /** Value l of quarter t, without the block's scale. */
  function Raw6(ql: Data, qh: Data, sc: Data, t: nat, l: nat): real
    requires |ql| == 64 && |qh| == 32 && |sc| == 8 && t < 4 && l < 32
  {
    Times(Signed(sc[l / 16 + 2 * t]) as real, Six(ql[l + 32 * (t % 2)], qh[l], t) as real)
  }

  function Unscaled6(ql: Data, qh: Data, sc: Data, t: nat): (v: Vec)
    requires |ql| == 64 && |qh| == 32 && |sc| == 8 && t < 4
    ensures |v| == 32
  {
    seq(32, l requires 0 <= l < 32 => Raw6(ql, qh, sc, t, l))
  }

  lemma QuarterScaled(d: real, ql: Data, qh: Data, sc: Data, t: nat)
    requires |ql| == 64 && |qh| == 32 && |sc| == 8 && t < 4
    ensures Quarter6(d, ql, qh, sc, t) == Scale(Unscaled6(ql, qh, sc, t), d)
  {
    forall l | 0 <= l < 32 ensures Quarter6(d, ql, qh, sc, t)[l] == Scale(Unscaled6(ql, qh, sc, t), d)[l] {
      TimesSwap(d, Signed(sc[l / 16 + 2 * t]) as real, Six(ql[l + 32 * (t % 2)], qh[l], t) as real);
    }
  }

  lemma TimesSwap(d: real, s: real, q: real)
    ensures Times(Times(d, s), q) == Times(Times(s, q), d)
  {
  }

  lemma QuarterDot(d: real, ql: Data, qh: Data, sc: Data, t: nat, x: Vec)
    requires |ql| == 64 && |qh| == 32 && |sc| == 8 && t < 4 && |x| == 32
    ensures Dot(Quarter6(d, ql, qh, sc, t), x) == Times(Dot(Unscaled6(ql, qh, sc, t), x), d)
  {
    QuarterScaled(d, ql, qh, sc, t);
    DotScale(Unscaled6(ql, qh, sc, t), x, d);
  }

  /** One loop over the four quarters of a half. */
  method HalfSum(ql: Data, qh: Data, sc: Data, x: Vec, d: real) returns (sum: real)
    requires |ql| == 64 && |qh| == 32 && |sc| == 8 && |x| == 128
    ensures Times(sum, d) == Dot(Quarters6(d, ql, qh, sc), x)
  {
    ghost var u0, u1, u2, u3 := Unscaled6(ql, qh, sc, 0), Unscaled6(ql, qh, sc, 1), Unscaled6(ql, qh, sc, 2), Unscaled6(ql, qh, sc, 3);
    ghost var x0, x1, x2, x3 := x[..32], x[32..64], x[64..96], x[96..];
    sum := 0.0;
    for l := 0 to 32
      invariant sum == DotTo(u0, x0, l) + DotTo(u1, x1, l) + DotTo(u2, x2, l) + DotTo(u3, x3, l)
    {
      sum := sum
        + (Times(Raw6(ql, qh, sc, 0, l), x[l]) + Times(Raw6(ql, qh, sc, 1, l), x[l + 32])
           + Times(Raw6(ql, qh, sc, 2, l), x[l + 64]) + Times(Raw6(ql, qh, sc, 3, l), x[l + 96]));
    }
    HalfDot(d, ql, qh, sc, x, Dot(u0, x0), Dot(u1, x1), Dot(u2, x2), Dot(u3, x3));
  }

  lemma HalfDot(d: real, ql: Data, qh: Data, sc: Data, x: Vec, a: real, b: real, c: real, e: real)
    requires |ql| == 64 && |qh| == 32 && |sc| == 8 && |x| == 128
    requires a == Dot(Unscaled6(ql, qh, sc, 0), x[..32]) && b == Dot(Unscaled6(ql, qh, sc, 1), x[32..64])
    requires c == Dot(Unscaled6(ql, qh, sc, 2), x[64..96]) && e == Dot(Unscaled6(ql, qh, sc, 3), x[96..])
    ensures Times(a + b + c + e, d) == Dot(Quarters6(d, ql, qh, sc), x)
  {
    var q0, q1, q2, q3 := Quarter6(d, ql, qh, sc, 0), Quarter6(d, ql, qh, sc, 1), Quarter6(d, ql, qh, sc, 2), Quarter6(d, ql, qh, sc, 3);
    QuarterDot(d, ql, qh, sc, 0, x[..32]);
    QuarterDot(d, ql, qh, sc, 1, x[32..64]);
    QuarterDot(d, ql, qh, sc, 2, x[64..96]);
    QuarterDot(d, ql, qh, sc, 3, x[96..]);
    FourDots(q0, q1, q2, q3, x);
    TimesAdd(a, b, d);
    TimesAdd(a + b, c, d);
    TimesAdd(a + b + c, e, d);
  }

  lemma FourDots(q0: Vec, q1: Vec, q2: Vec, q3: Vec, x: Vec)
    requires |q0| == |q1| == |q2| == |q3| == 32 && |x| == 128
    ensures Dot(q0 + (q1 + (q2 + q3)), x) == Dot(q0, x[..32]) + Dot(q1, x[32..64]) + Dot(q2, x[64..96]) + Dot(q3, x[96..])
  {
    var x23 := x[64..96] + x[96..];
    var x123 := x[32..64] + x23;
    assert x == x[..32] + x123;
    DotConcat(q2, q3, x[64..96], x[96..]);
    DotConcat(q1, q2 + q3, x[32..64], x23);
    DotConcat(q0, q1 + (q2 + q3), x[..32], x123);
  }

  method AddBlock6(total: real, block: Data, x: Vec) returns (r: real)
    requires |block| == 210 && |x| == 256
    ensures r == total + Dot(Half6(block, 0) + Half6(block, 1), x)
  {
    var d := Half(block[208], block[209]);
    var x0, x1 := x[..128], x[128..];
    var first := HalfSum(Low6(block, 0), High6(block, 0), Scales6(block, 0), x0, d);
    var second := HalfSum(Low6(block, 1), High6(block, 1), Scales6(block, 1), x1, d);
    r := total + Times(first + second, d);
    TimesAdd(first, second, d);
    assert x == x0 + x1;
    DotConcat(Half6(block, 0), Half6(block, 1), x0, x1);
  }

  // ---------- rows ----------

  /** The dot product of x with the first n decoded blocks of a row. */
  function RowDot(kind: nat, row: Data, x: Vec, n: nat): real
    requires Decodable(kind) && Span(n, Size(kind)) <= |row| && Span(n, Elements(kind)) <= |x|
  {
    Dot(RowValues(kind, row, n), x[..Span(n, Elements(kind))])
  }

  lemma RowDotStep(kind: nat, row: Data, x: Vec, n: nat, next: nat, p: nat, q: nat)
    requires Decodable(kind) && next == n + 1 && Span(next, Size(kind)) <= |row| && Span(next, Elements(kind)) <= |x|
    requires p == Span(n, Elements(kind)) && q == p + Elements(kind)
    ensures RowDot(kind, row, x, next) == RowDot(kind, row, x, n) + Dot(BlockValues(kind, BlockAt(kind, row, n)), x[p..q])
  {
    DotGrows(RowValues(kind, row, n), BlockValues(kind, BlockAt(kind, row, n)), x, p, q);
  }

  /** Adds one block's part of the dot product. */
  method AddBlock(kind: nat, total: real, block: Data, x: Vec) returns (r: real)
    requires Decodable(kind) && |block| == Size(kind) && |x| == Elements(kind)
    ensures r == total + Dot(BlockValues(kind, block), x)
  {
    if kind == Q4_K {
      r := AddBlock4(total, block, x);
    } else if kind == Q6_K {
      r := AddBlock6(total, block, x);
    } else if kind == Q8_0 {
      r := AddBlock8(total, block, x);
    } else {
      var w :=
        if kind == F32 then Single(block[0], block[1], block[2], block[3])
        else if kind == F16 then Half(block[0], block[1]) else Brain(block[0], block[1]);
      r := total + Times(w, x[0]);
      OneDot(w, x);
    }
  }

  /** The row kernels: block after block onto one running total. */
  method FusedRow(kind: nat, row: Data, x: Vec, n: nat, size: nat, elements: nat) returns (total: real)
    requires Decodable(kind) && size == Size(kind) && elements == Elements(kind)
    requires Span(n, size) <= |row| && Span(n, elements) <= |x|
    ensures total == RowDot(kind, row, x, n)
  {
    total := 0.0;
    for b := 0 to n
      invariant Span(b, size) <= |row| && Span(b, elements) <= |x| && total == RowDot(kind, row, x, b)
    {
      var next := b + 1;
      SpanMono(next, n, size);
      SpanMono(next, n, elements);
      var p := Span(b, elements);
      var q := p + elements;
      total := AddBlock(kind, total, BlockAt(kind, row, b), x[p..q]);
      RowDotStep(kind, row, x, b, next, p, q);
    }
  }

  const STACK_CHUNK: nat := 256

  /** The fallback for unaligned single-precision weights: chunks of 256 are decoded into a small buffer first. */
  method UnalignedRow(row: Data, x: Vec, d: nat) returns (sum: real)
    requires Span(d, Size(F32)) <= |row| && Span(d, Elements(F32)) <= |x|
    ensures sum == RowDot(F32, row, x, d)
  {
    var buffer := new real[STACK_CHUNK];
    var col := 0;
    sum := 0.0;
    while col < d
      invariant col <= d && Span(col, Size(F32)) <= |row| && Span(col, Elements(F32)) <= |x|
      invariant sum == RowDot(F32, row, x, col)
    {
      var len := if d - col < STACK_CHUNK then d - col else STACK_CHUNK;
      DecodeChunk(row, d, col, len, buffer);
      sum := AddChunk(row, x, d, col, len, buffer[..len], sum);
      col := col + len;
    }
  }

  method DecodeChunk(row: Data, d: nat, col: nat, len: nat, buffer: array<real>)
    requires Span(d, Size(F32)) <= |row| && col + len <= d && len <= buffer.Length
    modifies buffer
    ensures forall i :: 0 <= i < len ==> Holds(row, col + i, buffer[i])
  {
    for i := 0 to len
      invariant forall k :: 0 <= k < i ==> Holds(row, col + k, buffer[k])
    {
      var at := col + i;
      SpanMono(at + 1, d, Size(F32));
      var p := Span(at, Size(F32));
      buffer[i] := Single(row[p], row[p + 1], row[p + 2], row[p + 3]);
      assert Holds(row, at, buffer[i]);
    }
  }

  /** w is the single-precision weight at column c. */
  predicate Holds(row: Data, c: nat, w: real) {
    && Span(c + 1, Size(F32)) <= |row|
    && BlockValues(F32, BlockAt(F32, row, c)) == [w]
  }

  method AddChunk(row: Data, x: Vec, d: nat, col: nat, len: nat, ws: Vec, start: real) returns (sum: real)
    requires Span(d, Size(F32)) <= |row| && Span(d, Elements(F32)) <= |x| && col + len <= d && |ws| == len
    requires forall i :: 0 <= i < len ==> Holds(row, col + i, ws[i])
    requires Span(col, Size(F32)) <= |row| && Span(col, Elements(F32)) <= |x| && start == RowDot(F32, row, x, col)
    ensures Span(col + len, Size(F32)) <= |row| && Span(col + len, Elements(F32)) <= |x|
    ensures sum == RowDot(F32, row, x, col + len)
  {
    sum := start;
    var at := col;
    for k := 0 to len
      invariant at == col + k && Span(at, Size(F32)) <= |row| && Span(at, Elements(F32)) <= |x|
      invariant sum == RowDot(F32, row, x, at)
    {
      var next := at + 1;
      SpanMono(next, d, Size(F32));
      SpanMono(next, d, Elements(F32));
      SpanIs(at, 1);
      assert Holds(row, col + k, ws[k]);
      RowDotStep(F32, row, x, at, next, at, next);
      OneDot(ws[k], x[at..next]);
      sum := sum + Times(ws[k], x[at]);
      at := next;
    }
  }

  lemma OneDot(w: real, x: Vec)
    requires |x| == 1
    ensures Dot([w], x) == Times(w, x[0])
  {
    assert DotTo([w], x, 0) == 0.0;
  }
}
