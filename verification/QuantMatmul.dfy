/** Batched matrix product over quantised rows, equal to the product with the decoded matrix. */
module QuantMatmul {
  import opened Bytes
  import opened Common
  import opened FusedDot
  import opened Layout
  import opened QuantBlocks
  import opened QuantTypes
  import opened Vectors

  const PARALLEL_THRESHOLD: nat := 256
  const PARALLEL_CHUNK: nat := 128

  // ---------- the product ----------

  /** One call's operands: rows of n blocks each, and a batch of input rows. */
  datatype Product = Product(kind: nat, weights: Data, inputs: Vec, batch: nat, rows: nat, n: nat) {
    function Cols(): (c: nat)
      requires Decodable(kind)
    {
      Span(n, Elements(kind))
    }

    function RowBytes(): (c: nat)
      requires Decodable(kind)
    {
      Span(n, Size(kind))
    }

    predicate Valid() {
      Decodable(kind) && Span(rows, RowBytes()) <= |weights| && Span(batch, Cols()) <= |inputs|
    }

    /** The bytes of weight row r. */
    function Weights(r: nat): (row: Data)
      requires Valid() && r < rows
      ensures |row| == RowBytes()
    {
      SpanMono(r + 1, rows, RowBytes());
      weights[Span(r, RowBytes())..Span(r, RowBytes()) + RowBytes()]
    }

    function Input(b: nat): (x: Vec)
      requires Valid() && b < batch
      ensures |x| == Cols()
    {
      SpanMono(b + 1, batch, Cols());
      inputs[Span(b, Cols())..Span(b, Cols()) + Cols()]
    }

    /** Entry (b, r) of the product: input b with the decoded row r. */
    function Cell(b: nat, r: nat): real
      requires Valid() && b < batch && r < rows
    {
      Dot(RowValues(kind, Weights(r), n), Input(b))
    }

    /** Row r of the transposed product. */
    function CellRow(r: nat): (v: Vec)
      requires Valid() && r < rows
      ensures |v| == batch
    {
      seq(batch, b requires 0 <= b < batch => Cell(b, r))
    }
  }

  // ---------- positions ----------

  /** Cell j of row i, in rows of h cells. */
  function Pos(i: nat, j: nat, h: nat): nat {
    Span(i, h) + j
  }

  lemma PosApart(i: nat, j: nat, k: nat, l: nat, h: nat)
    requires j < h && l < h && (i != k || j != l)
    ensures Pos(i, j, h) != Pos(k, l, h)
  {
    if i < k {
      SpanMono(i + 1, k, h);
    } else if k < i {
      SpanMono(k + 1, i, h);
    }
  }

  lemma PosWithin(i: nat, j: nat, n: nat, h: nat)
    requires i < n && j < h
    ensures Pos(i, j, h) < Span(n, h)
  {
    SpanMono(i + 1, n, h);
  }

  // ---------- transposing ----------

  /** The cell (i, j) of src stands at (j, i) of dst. */
  ghost predicate Moved(src: Vec, dst: Vec, n: nat, h: nat, i: nat, j: nat) {
    && Pos(i, j, h) < |src| && Pos(j, i, n) < |dst|
    && dst[Pos(j, i, n)] == src[Pos(i, j, h)]
  }

  /** Of the cells moved before, those outside row i still are. */
  ghost predicate Keeps(src: Vec, before: Vec, now: Vec, n: nat, h: nat, i: nat) {
    forall k: nat, j: nat :: k < n && j < h && k != i && Moved(src, before, n, h, k, j) ==> Moved(src, now, n, h, k, j)
  }

  /** dst[j * n + i] = src[i * h + j], and nothing beyond. */
  method TransposeInto(src: Vec, n: nat, h: nat, dst: array<real>)
    requires Span(n, h) <= |src| && Span(h, n) <= dst.Length
    modifies dst
    ensures forall i: nat, j: nat :: i < n && j < h ==> Moved(src, dst[..], n, h, i, j)
    ensures forall k :: Span(h, n) <= k < dst.Length ==> dst[k] == old(dst[k])
  {
    for i := 0 to n
      invariant forall k: nat, j: nat :: k < i && j < h ==> Moved(src, dst[..], n, h, k, j)
      invariant forall k :: Span(h, n) <= k < dst.Length ==> dst[k] == old(dst[k])
    {
      TransposeRow(src, n, h, i, dst);
    }
  }

  method TransposeRow(src: Vec, n: nat, h: nat, i: nat, dst: array<real>)
    requires Span(n, h) <= |src| && Span(h, n) <= dst.Length && i < n
    modifies dst
    ensures forall j: nat :: j < h ==> Moved(src, dst[..], n, h, i, j)
    ensures Keeps(src, old(dst[..]), dst[..], n, h, i)
    ensures forall k :: Span(h, n) <= k < dst.Length ==> dst[k] == old(dst[k])
  {
    ghost var was := dst[..];
    for j := 0 to h
      invariant forall l: nat :: l < j ==> Moved(src, dst[..], n, h, i, l)
      invariant Keeps(src, was, dst[..], n, h, i)
      invariant forall k :: Span(h, n) <= k < dst.Length ==> dst[k] == was[k]
    {
      PosWithin(i, j, n, h);
      PosWithin(j, i, h, n);
      ghost var before := dst[..];
      dst[Pos(j, i, n)] := src[Pos(i, j, h)];
      forall k: nat, l: nat | k < n && l < h && (k != i || l != j) && Moved(src, before, n, h, k, l)
        ensures Moved(src, dst[..], n, h, k, l)
      {
        PosApart(j, i, l, k, n);
      }
    }
  }

  // ---------- one decoded row against the batch ----------

  /** The first n terms of column b of a transposed batch. */
  function ColumnDot(w: Vec, t: Vec, batch: nat, b: nat, n: nat): real
    requires n <= |w| && Span(n, batch) <= |t| && b < batch
  {
    if n == 0 then 0.0 else ColumnDot(w, t, batch, b, n - 1) + Times(w[n - 1], t[Pos(n - 1, b, batch)])
  }

  lemma {:induction false} ColumnIsInput(w: Vec, t: Vec, inputs: Vec, batch: nat, cols: nat, b: nat, x: Vec, n: nat)
    requires |w| == cols == |x| && Span(cols, batch) <= |t| && b < batch && n <= cols && Span(batch, cols) <= |inputs|
    requires forall j: nat :: j < cols ==> Moved(inputs, t, batch, cols, b, j)
    requires Span(b, cols) + cols <= |inputs| && x == inputs[Span(b, cols)..Span(b, cols) + cols]
    ensures Span(n, batch) <= |t| && ColumnDot(w, t, batch, b, n) == DotTo(w, x, n)
  {
    SpanMono(n, cols, batch);
    if n > 0 {
      ColumnIsInput(w, t, inputs, batch, cols, b, x, n - 1);
      assert Moved(inputs, t, batch, cols, b, n - 1);
    }
  }

  function ColumnDots(w: Vec, t: Vec, batch: nat, n: nat): (v: Vec)
    requires n <= |w| && Span(n, batch) <= |t|
    ensures |v| == batch
  {
    seq(batch, b requires 0 <= b < batch => ColumnDot(w, t, batch, b, n))
  }

  /** `matmul_accumulate_transposed` on an output filled with zeros: column after column, across the batch. */
  method Accumulate(out: array<real>, at: nat, w: Vec, t: Vec, batch: nat, cols: nat)
    requires at + batch <= out.Length && |w| == cols && Span(cols, batch) <= |t|
    requires forall k :: at <= k < at + batch ==> out[k] == 0.0
    modifies out
    ensures Written(old(out[..]), out[..], at, ColumnDots(w, t, batch, cols))
  {
    ghost var was := out[..];
    for c := 0 to cols
      invariant Span(c, batch) <= |t|
      invariant forall k :: at <= k < at + batch ==> out[k] == ColumnDot(w, t, batch, k - at, c)
      invariant forall k :: 0 <= k < out.Length && (k < at || at + batch <= k) ==> out[k] == was[k]
    {
      SpanMono(c + 1, cols, batch);
      for b := 0 to batch
        invariant forall k :: at <= k < at + b ==> out[k] == ColumnDot(w, t, batch, k - at, c + 1)
        invariant forall k :: at + b <= k < at + batch ==> out[k] == ColumnDot(w, t, batch, k - at, c)
        invariant forall k :: 0 <= k < out.Length && (k < at || at + batch <= k) ==> out[k] == was[k]
      {
        out[at + b] := out[at + b] + Times(w[c], t[Pos(c, b, batch)]);
      }
    }
    WrittenFrom(was, out[..], at, ColumnDots(w, t, batch, cols));
  }

  lemma WrittenFrom(b: Vec, a: Vec, at: nat, v: Vec)
    requires |a| == |b| && at + |v| <= |a|
    requires forall k :: at <= k < at + |v| ==> a[k] == v[k - at]
    requires forall k :: 0 <= k < |a| && (k < at || at + |v| <= k) ==> a[k] == b[k]
    ensures Written(b, a, at, v)
  {
  }

  // ---------- the rows of one chunk ----------

  /** t is the batch with the columns first. */
  ghost predicate Transposed(p: Product, t: Vec)
    requires p.Valid()
  {
    Span(p.Cols(), p.batch) <= |t| && forall b: nat, c: nat :: b < p.batch && c < p.Cols() ==> Moved(p.inputs, t, p.batch, p.Cols(), b, c)
  }

  /** Accumulating over columns gives a row of the product. */
  lemma ColumnsAreCells(p: Product, t: Vec, w: Vec, r: nat)
    requires p.Valid() && Transposed(p, t) && r < p.rows && w == RowValues(p.kind, p.Weights(r), p.n)
    ensures ColumnDots(w, t, p.batch, p.Cols()) == p.CellRow(r)
  {
    var cols := p.Cols();
    forall b: nat | b < p.batch ensures ColumnDot(w, t, p.batch, b, cols) == p.Cell(b, r) {
      ColumnIsCell(p, t, w, r, b, cols);
    }
  }

  lemma ColumnIsCell(p: Product, t: Vec, w: Vec, r: nat, b: nat, cols: nat)
    requires p.Valid() && Transposed(p, t) && r < p.rows && b < p.batch && w == RowValues(p.kind, p.Weights(r), p.n) && cols == p.Cols()
    ensures ColumnDot(w, t, p.batch, b, cols) == p.Cell(b, r)
  {
    SpanMono(b + 1, p.batch, cols);
    ColumnIsInput(w, t, p.inputs, p.batch, cols, b, p.Input(b), cols);
  }

  method DotProduct(a: Vec, b: Vec) returns (sum: real)
    requires |a| == |b|
    ensures sum == Dot(a, b)
  {
    sum := 0.0;
    for i := 0 to |a|
      invariant sum == DotTo(a, b, i)
    {
      sum := sum + Times(a[i], b[i]);
    }
  }

  /** One dot product per input: the small-batch mode. */
  method PerInput(p: Product, w: Vec, r: nat, out: array<real>)
    requires p.Valid() && r < p.rows && w == RowValues(p.kind, p.Weights(r), p.n) && out.Length == p.batch
    modifies out
    ensures out[..] == p.CellRow(r)
  {
    for b := 0 to p.batch
      invariant forall k :: 0 <= k < b ==> out[k] == p.CellRow(r)[k]
    {
      out[b] := DotProduct(w, p.Input(b));
    }
  }

  method Fill(out: array<real>, at: nat, len: nat)
    requires at + len <= out.Length
    modifies out
    ensures forall k :: at <= k < at + len ==> out[k] == 0.0
    ensures forall k :: 0 <= k < out.Length && (k < at || at + len <= k) ==> out[k] == old(out[k])
  {
    for i := at to at + len
      invariant forall k :: at <= k < i ==> out[k] == 0.0
      invariant forall k :: 0 <= k < out.Length && (k < at || i <= k) ==> out[k] == old(out[k])
    {
      out[i] := 0.0;
    }
  }

  /** Row r of the row-major output is row r of the transposed product. */
  ghost predicate RowDone(p: Product, out: Vec, r: nat)
    requires p.Valid()
  {
    && r < p.rows && Span(r, p.batch) + p.batch <= |out|
    && out[Span(r, p.batch)..Span(r, p.batch) + p.batch] == p.CellRow(r)
  }

  lemma RowWritten(p: Product, b: Vec, a: Vec, at: nat, r: nat)
    requires p.Valid() && r < p.rows && at == Span(r, p.batch) && Written(b, a, at, p.CellRow(r))
    ensures RowDone(p, a, r)
  {
  }

  /** Writing row r leaves the other rows alone. */
  lemma RowKept(p: Product, b: Vec, a: Vec, at: nat, r: nat, k: nat)
    requires p.Valid() && r < p.rows && at == Span(r, p.batch) && Written(b, a, at, p.CellRow(r))
    requires k != r && RowDone(p, b, k)
    ensures RowDone(p, a, k)
  {
    if k < r { SpanMono(k + 1, r, p.batch); } else { SpanMono(r + 1, k, p.batch); }
    var v, lo := p.CellRow(r), Span(k, p.batch);
    var hi := lo + p.batch;
    assert hi <= at || at + |v| <= lo;
    WrittenElsewhere(b, a, at, v, lo, hi);
  }

  lemma WrittenElsewhere(b: Vec, a: Vec, at: nat, v: Vec, lo: nat, hi: nat)
    requires Written(b, a, at, v) && lo <= hi <= |a| && (hi <= at || at + |v| <= lo)
    ensures a[lo..hi] == b[lo..hi]
  {
  }

  /** Rows [lo, hi) are done, and rows done before still are. */
  ghost predicate ChunkDone(p: Product, before: Vec, now: Vec, lo: nat, hi: nat)
    requires p.Valid()
  {
    && |now| == |before| && (forall k: nat :: lo <= k < hi ==> RowDone(p, now, k))
    && (forall k: nat :: RowDone(p, before, k) && (k < lo || hi <= k) ==> RowDone(p, now, k))
  }

  lemma ChunkGrows(p: Product, a: Vec, b: Vec, c: Vec, lo: nat, r: nat, next: nat)
    requires p.Valid() && lo <= r < p.rows && next == r + 1
    requires ChunkDone(p, a, b, lo, r) && Written(b, c, Span(r, p.batch), p.CellRow(r))
    ensures ChunkDone(p, a, c, lo, next)
  {
    RowWritten(p, b, c, Span(r, p.batch), r);
    forall k: nat | k != r && RowDone(p, b, k) ensures RowDone(p, c, k) {
      RowKept(p, b, c, Span(r, p.batch), r, k);
    }
  }

  /** A run of writes that together touch [at, at + |v|) only. */
  lemma FilledThenWritten(b: Vec, filled: Vec, a: Vec, at: nat, v: Vec)
    requires |filled| == |b| && Written(filled, a, at, v)
    requires forall k :: 0 <= k < |b| && (k < at || at + |v| <= k) ==> filled[k] == b[k]
    ensures Written(b, a, at, v)
  {
    assert filled[..at] == b[..at] && filled[at + |v|..] == b[at + |v|..];
  }

  /** Decodes weight row r. */
  method DecodeRow(p: Product, r: nat, out: array<real>)
    requires p.Valid() && r < p.rows && out.Length == p.Cols()
    modifies out
    ensures out[..] == RowValues(p.kind, p.Weights(r), p.n)
  {
    ghost var was := out[..];
    RowBlocks(p.kind, p.n);
    var refused := DequantizeSlice(p.kind, p.Weights(r), out);
    WrittenAll(was, out[..], RowValues(p.kind, p.Weights(r), p.n));
  }

  /** Decodes row r and computes its entries into the output. */
  method RowInto(p: Product, t: Vec, r: nat, at: nat, across: bool, decoded: array<real>, rowOutput: array<real>, out: array<real>)
    requires p.Valid() && r < p.rows && (across ==> Transposed(p, t)) && at + p.batch <= out.Length
    requires decoded.Length == p.Cols() && rowOutput.Length == p.batch
    requires decoded != rowOutput && decoded != out && rowOutput != out
    modifies decoded, rowOutput, out
    ensures Written(old(out[..]), out[..], at, p.CellRow(r))
  {
    DecodeRow(p, r, decoded);
    if across {
      Fill(rowOutput, 0, p.batch);
      AcrossBatch(p, t, decoded[..], r, rowOutput);
    } else {
      PerInput(p, decoded[..], r, rowOutput);
    }
    CopyInto(rowOutput[..], out, at);
  }

  method AcrossBatch(p: Product, t: Vec, w: Vec, r: nat, out: array<real>)
    requires p.Valid() && Transposed(p, t) && r < p.rows && w == RowValues(p.kind, p.Weights(r), p.n)
    requires out.Length == p.batch && forall k :: 0 <= k < p.batch ==> out[k] == 0.0
    modifies out
    ensures out[..] == p.CellRow(r)
  {
    Accumulate(out, 0, w, t, p.batch, p.Cols());
    ColumnsAreCells(p, t, w, r);
  }

  method CopyInto(src: Vec, out: array<real>, at: nat)
    requires at + |src| <= out.Length
    modifies out
    ensures Written(old(out[..]), out[..], at, src)
  {
    ghost var was := out[..];
    for i := 0 to |src|
      invariant forall k :: at <= k < at + i ==> out[k] == src[k - at]
      invariant forall k :: 0 <= k < out.Length && (k < at || at + i <= k) ==> out[k] == was[k]
    {
      out[at + i] := src[i];
    }
    WrittenFrom(was, out[..], at, src);
  }

  /** Decodes rows r and r + 1 and accumulates both in place. */
  method PairInto(p: Product, t: Vec, r: nat, next: nat, at: nat, first: array<real>, second: array<real>, out: array<real>)
    requires p.Valid() && next == r + 1 < p.rows && Transposed(p, t) && at + p.batch + p.batch <= out.Length
    requires first.Length == p.Cols() == second.Length && first != second && first != out && second != out
    modifies first, second, out
    ensures Written(old(out[..]), out[..], at, p.CellRow(r) + p.CellRow(next))
  {
    ghost var was := out[..];
    DecodeRow(p, r, first);
    var mid := at + p.batch;
    Fill(out, at, p.batch + p.batch);
    ghost var filled := out[..];
    DecodeRow(p, next, second);
    AccumulatePair(p, t, r, next, at, mid, first[..], second[..], out);
    FilledThenWritten(was, filled, out[..], at, p.CellRow(r) + p.CellRow(next));
  }

  /** `matmul_accumulate_transposed_pair` on two outputs filled with zeros. */
  method AccumulatePair(p: Product, t: Vec, r: nat, next: nat, at: nat, mid: nat, first: Vec, second: Vec, out: array<real>)
    requires p.Valid() && r < p.rows && next < p.rows && Transposed(p, t) && mid == at + p.batch && mid + p.batch <= out.Length
    requires first == RowValues(p.kind, p.Weights(r), p.n) && second == RowValues(p.kind, p.Weights(next), p.n)
    requires forall k :: at <= k < mid + p.batch ==> out[k] == 0.0
    modifies out
    ensures Written(old(out[..]), out[..], at, p.CellRow(r) + p.CellRow(next))
  {
    ghost var filled := out[..];
    ColumnsAreCells(p, t, first, r);
    ColumnsAreCells(p, t, second, next);
    Accumulate(out, at, first, t, p.batch, p.Cols());
    ghost var between := out[..];
    StillZero(filled, between, at, mid, p.CellRow(r));
    Accumulate(out, mid, second, t, p.batch, p.Cols());
    WrittenAfter(filled, between, out[..], at, mid, p.CellRow(r), p.CellRow(next));
  }

  lemma StillZero(b: Vec, a: Vec, at: nat, mid: nat, v: Vec)
    requires Written(b, a, at, v) && mid == at + |v|
    ensures forall k :: mid <= k < |a| ==> a[k] == b[k]
  {
  }

  /** The last row of an odd chunk. */
  method TailInto(p: Product, t: Vec, r: nat, at: nat, first: array<real>, out: array<real>)
    requires p.Valid() && r < p.rows && Transposed(p, t) && at + p.batch <= out.Length
    requires first.Length == p.Cols() && first != out
    modifies first, out
    ensures Written(old(out[..]), out[..], at, p.CellRow(r))
  {
    ghost var was := out[..];
    DecodeRow(p, r, first);
    Fill(out, at, p.batch);
    ghost var filled := out[..];
    ColumnsAreCells(p, t, first[..], r);
    Accumulate(out, at, first[..], t, p.batch, p.Cols());
    FilledThenWritten(was, filled, out[..], at, p.CellRow(r));
  }

  /** Two rows written at once are two rows written one after the other. */
  lemma PairGrows(p: Product, a: Vec, b: Vec, c: Vec, lo: nat, r: nat, next: nat)
    requires p.Valid() && lo <= r && next == r + 1 < p.rows
    requires ChunkDone(p, a, b, lo, r) && Written(b, c, Span(r, p.batch), p.CellRow(r) + p.CellRow(next))
    ensures ChunkDone(p, a, c, lo, next + 1)
  {
    var mid := WrittenSplit(b, c, Span(r, p.batch), Span(next, p.batch), p.CellRow(r), p.CellRow(next));
    ChunkGrows(p, a, b, mid, lo, r, next);
    ChunkGrows(p, a, mid, c, lo, next, next + 1);
  }

  lemma WrittenSplit(b: Vec, c: Vec, at: nat, next: nat, v: Vec, w: Vec) returns (mid: Vec)
    requires Written(b, c, at, v + w) && next == at + |v|
    ensures Written(b, mid, at, v) && Written(mid, c, next, w)
  {
    mid := b[..at] + v + b[next..];
    assert mid[..next] == b[..at] + v;
    assert mid[next + |w|..] == b[at + |v + w|..];
  }

  // ---------- chunks ----------

  /** `compute_batched_rows`: rows [lo, hi), which are the chunk of the output that begins at row lo. */
  method ComputeBatchedRows(p: Product, t: Vec, lo: nat, hi: nat, across: bool, out: array<real>)
    requires p.Valid() && lo <= hi <= p.rows && (across ==> Transposed(p, t)) && out.Length == Span(p.rows, p.batch)
    modifies out
    ensures ChunkDone(p, old(out[..]), out[..], lo, hi)
  {
    var start := Span(lo, p.batch);
    if across && p.batch >= 32 {
      ComputePairs(p, t, lo, hi, start, out);
      return;
    }
    var decoded, rowOutput := new real[p.Cols()], new real[p.batch];
    ghost var was := out[..];
    for r := lo to hi
      invariant ChunkDone(p, was, out[..], lo, r)
      invariant fresh(decoded) && fresh(rowOutput) && decoded != rowOutput
    {
      ghost var before := out[..];
      var done, next := r - lo, r + 1;
      SpanAdd(lo, done, p.batch);
      SpanMono(next, p.rows, p.batch);
      RowInto(p, t, r, start + Span(done, p.batch), across, decoded, rowOutput, out);
      ChunkGrows(p, was, before, out[..], lo, r, next);
    }
  }

  /** The wide kernel: two rows at a time, and the odd one last. */
  method ComputePairs(p: Product, t: Vec, lo: nat, hi: nat, start: nat, out: array<real>)
    requires p.Valid() && lo <= hi <= p.rows && Transposed(p, t) && out.Length == Span(p.rows, p.batch) && start == Span(lo, p.batch)
    modifies out
    ensures ChunkDone(p, old(out[..]), out[..], lo, hi)
  {
    var first, second := new real[p.Cols()], new real[p.Cols()];
    ghost var was := out[..];
    var r, at := lo, start;
    while r < hi
      invariant lo <= r <= hi && at == Span(r, p.batch)
      invariant ChunkDone(p, was, out[..], lo, r)
      invariant fresh(first) && fresh(second) && first != second
    {
      ghost var before := out[..];
      var next := r + 1;
      if next < hi {
        SpanMono(next + 1, p.rows, p.batch);
        PairInto(p, t, r, next, at, first, second, out);
        PairGrows(p, was, before, out[..], lo, r, next);
        r, at := next + 1, at + p.batch + p.batch;
      } else {
        SpanMono(next, p.rows, p.batch);
        TailInto(p, t, r, at, first, out);
        ChunkGrows(p, was, before, out[..], lo, r, next);
        r, at := next, at + p.batch;
      }
    }
  }

  /** n divided by d, rounded up: the number of chunks of d rows, the last one possibly shorter. */
  function ChunkCount(n: nat, d: nat): (c: nat)
    requires d > 0
    ensures n > 0 ==> c > 0
  {
    if n == 0 then 0 else if n <= d then 1 else 1 + ChunkCount(n - d, d)
  }

  /** Any order in which every chunk runs at least once. */
  predicate Schedule(order: seq<nat>, count: nat) {
    (forall i :: 0 <= i < |order| ==> order[i] < count) && (forall c: nat :: c < count ==> c in order)
  }

  /** Every chunk begins at a row. */
  lemma {:induction false} ChunkInside(rows: nat, size: nat, c: nat)
    requires size > 0 && c < ChunkCount(rows, size)
    ensures Span(c, size) < rows
    decreases rows
  {
    if c > 0 { ChunkInside(rows - size, size, c - 1); }
  }

  /** Every row is in some chunk. */
  lemma {:induction false} ChunkOf(rows: nat, size: nat, r: nat) returns (c: nat)
    requires size > 0 && r < rows
    ensures c < ChunkCount(rows, size) && Span(c, size) <= r < Span(c, size) + size
    decreases rows
  {
    if r < size {
      c := 0;
    } else {
      var before := ChunkOf(rows - size, size, r - size);
      c := before + 1;
    }
  }

  function Min(a: nat, b: nat): nat {
    if a < b then a else b
  }

  ghost predicate ChunkRows(p: Product, out: Vec, c: nat, size: nat)
    requires p.Valid()
  {
    forall k: nat :: Span(c, size) <= k < Min(Span(c, size) + size, p.rows) ==> RowDone(p, out, k)
  }

  /** The parallel run: chunks in any order, each over its own part of the output. */
  method ComputeChunks(p: Product, t: Vec, across: bool, size: nat, order: seq<nat>, out: array<real>)
    requires p.Valid() && (across ==> Transposed(p, t)) && out.Length == Span(p.rows, p.batch)
    requires size > 0 && Schedule(order, ChunkCount(p.rows, size))
    modifies out
    ensures forall k: nat :: k < p.rows ==> RowDone(p, out[..], k)
  {
    for i := 0 to |order|
      invariant forall j :: 0 <= j < i ==> ChunkRows(p, out[..], order[j], size)
    {
      var c := order[i];
      ChunkInside(p.rows, size, c);
      var lo := Span(c, size);
      var hi := Min(lo + size, p.rows);
      ghost var before := out[..];
      ComputeBatchedRows(p, t, lo, hi, across, out);
      forall j | 0 <= j < i ensures ChunkRows(p, out[..], order[j], size) {
        ChunkStays(p, before, out[..], lo, hi, order[j], size);
      }
    }
    forall k: nat | k < p.rows ensures RowDone(p, out[..], k) {
      var c := ChunkOf(p.rows, size, k);
      assert c in order;
    }
  }

  lemma ChunkStays(p: Product, before: Vec, now: Vec, lo: nat, hi: nat, c: nat, size: nat)
    requires p.Valid() && ChunkDone(p, before, now, lo, hi) && ChunkRows(p, before, c, size)
    ensures ChunkRows(p, now, c, size)
  {
    forall k: nat | Span(c, size) <= k < Min(Span(c, size) + size, p.rows) ensures RowDone(p, now, k) {
      assert RowDone(p, before, k);
    }
  }

  // ---------- one input ----------

  /** The matrix-vector kernels, on rows [lo, hi): nothing is decoded ahead. */
  method FusedRows(p: Product, lo: nat, hi: nat, aligned: bool, out: array<real>)
    requires p.Valid() && p.batch == 1 && lo <= hi <= p.rows <= out.Length
    modifies out
    ensures forall r: nat :: lo <= r < hi ==> out[r] == p.Cell(0, r)
    ensures forall k :: 0 <= k < out.Length && (k < lo || hi <= k) ==> out[k] == old(out[k])
  {
    var x := p.Input(0);
    for r := lo to hi
      invariant forall k: nat :: lo <= k < r ==> out[k] == p.Cell(0, k)
      invariant forall k :: 0 <= k < out.Length && (k < lo || r <= k) ==> out[k] == old(out[k])
    {
      assert x[..p.Cols()] == x;
      if p.kind == F32 && !aligned {
        SpanIs(p.n, 1);
        out[r] := UnalignedRow(p.Weights(r), x, p.n);
      } else {
        out[r] := FusedRow(p.kind, p.Weights(r), x, p.n, Size(p.kind), Elements(p.kind));
      }
    }
  }

  /** `quantized_matvec`: in chunks of 128 rows, in any order, when there are 256 rows or more. */
  method QuantizedMatvec(p: Product, aligned: bool, order: seq<nat>, out: array<real>)
    requires p.Valid() && p.batch == 1 && p.rows <= out.Length
    requires Schedule(order, ChunkCount(p.rows, PARALLEL_CHUNK))
    modifies out
    ensures forall r: nat :: r < p.rows ==> out[r] == p.Cell(0, r)
    ensures forall k :: p.rows <= k < out.Length ==> out[k] == old(out[k])
  {
    if p.kind == F32 || p.rows < PARALLEL_THRESHOLD {
      FusedRows(p, 0, p.rows, aligned, out);
      return;
    }
    for i := 0 to |order|
      invariant forall j :: 0 <= j < i ==> ChunkFused(p, out[..], order[j])
      invariant forall k :: p.rows <= k < out.Length ==> out[k] == old(out[k])
    {
      var c := order[i];
      ChunkInside(p.rows, PARALLEL_CHUNK, c);
      var lo := Span(c, PARALLEL_CHUNK);
      FusedRows(p, lo, Min(lo + PARALLEL_CHUNK, p.rows), aligned, out);
    }
    forall r: nat | r < p.rows ensures out[r] == p.Cell(0, r) {
      var c := ChunkOf(p.rows, PARALLEL_CHUNK, r);
      assert c in order;
    }
  }

  /** The rows of chunk c hold their entries. */
  ghost predicate ChunkFused(p: Product, out: Vec, c: nat)
    requires p.Valid() && p.batch == 1
  {
    p.rows <= |out| && forall r: nat :: Span(c, PARALLEL_CHUNK) <= r < Min(Span(c, PARALLEL_CHUNK) + PARALLEL_CHUNK, p.rows) ==> out[r] == p.Cell(0, r)
  }

  // ---------- the whole call ----------

  /** What the argument checks refuse, in their order. */
  function Refusal(out: nat, kind: nat, weights: nat, inputs: nat, batch: nat, rows: nat, cols: nat): Option<QuantError> {
    match (BlockSize(kind), TypeSize(kind))
    case (Some(block), Some(size)) =>
      if block == 0 || cols % block != 0 then Some(DimensionMisaligned(cols, block))
      else if Span(cols / block, size) > MAX_USIZE || Span(batch, rows) > MAX_USIZE then Some(ArithmeticOverflow)
      else if out < Span(batch, rows) then Some(BufferTooSmall(Span(batch, rows), out))
      else if Span(batch, cols) > MAX_USIZE then Some(ArithmeticOverflow)
      else if inputs < Span(batch, cols) then Some(BufferTooSmall(Span(batch, cols), inputs))
      else if Span(rows, Span(cols / block, size)) > MAX_USIZE then Some(ArithmeticOverflow)
      else if weights < Span(rows, Span(cols / block, size)) then Some(BufferTooSmall(Span(rows, Span(cols / block, size)), weights))
      else None
    case _ => Some(UnsupportedType(kind))
  }

  /** Rows per chunk when the work is spread over threads. */
  function ChunkSize(batch: nat, rows: nat, threads: nat): (size: nat)
    ensures size > 0
  {
    if batch == 1 || rows == 0 then PARALLEL_CHUNK
    else ChunkCount(rows, if threads == 0 then 1 else threads)
  }

  /** Work is left after the checks: a single input always goes to the matrix-vector kernels. */
  predicate Works(batch: nat, rows: nat) {
    batch == 1 || (batch > 0 && rows > 0)
  }

  /** The outcome of a call. */
  function Outcome(out: nat, kind: nat, weights: nat, inputs: nat, batch: nat, rows: nat, cols: nat): Option<QuantError> {
    match Refusal(out, kind, weights, inputs, batch, rows, cols)
    case Some(e) => Some(e)
    case None => if Works(batch, rows) && !Decodable(kind) then Some(UnsupportedType(kind)) else None
  }

  /** Elements and bytes of one block, for the types the kernels decode. */
  predicate BlockLayout(kind: nat, block: nat, size: nat) {
    (kind, block, size) in [(0, 1, 4), (1, 1, 2), (30, 1, 2), (8, 32, 34), (12, 256, 144), (14, 256, 210)]
  }

  /** For operands of addressable length, a call succeeds exactly when the columns are whole blocks, one row of weights can
      be addressed, and output, inputs and weights hold their matrices. */
  lemma SucceedsIff(out: nat, kind: nat, weights: nat, inputs: nat, batch: nat, rows: nat, cols: nat, block: nat, size: nat)
    requires BlockLayout(kind, block, size) && out <= MAX_USIZE && weights <= MAX_USIZE && inputs <= MAX_USIZE
    ensures Outcome(out, kind, weights, inputs, batch, rows, cols) == None <==>
      && cols % block == 0 && cols / block * size <= MAX_USIZE
      && batch * rows <= out && batch * cols <= inputs && rows * (cols / block * size) <= weights
  {
    var n := cols / block;
    var width := Span(n, size);
    SpanIs(n, size);
    SpanIs(batch, rows);
    SpanIs(batch, cols);
    SpanIs(rows, width);
  }

  /** The operands of a call that the checks let through. */
  function Operands(kind: nat, weights: Data, inputs: Vec, batch: nat, rows: nat, cols: nat): (p: Product)
    requires Decodable(kind)
  {
    Product(kind, weights, inputs, batch, rows, cols / Elements(kind))
  }

  lemma OperandsValid(out: nat, kind: nat, weights: Data, inputs: Vec, batch: nat, rows: nat, cols: nat)
    requires Decodable(kind) && Refusal(out, kind, |weights|, |inputs|, batch, rows, cols) == None
    ensures Operands(kind, weights, inputs, batch, rows, cols).Valid()
    ensures Operands(kind, weights, inputs, batch, rows, cols).Cols() == cols
    ensures Span(batch, rows) <= out
  {
    Exact(cols, Elements(kind), cols / Elements(kind));
  }

  lemma Exact(cols: nat, block: nat, n: nat)
    requires block > 0 && cols % block == 0 && n == cols / block
    ensures Span(n, block) == cols
  {
    SpanIs(n, block);
  }

  /** out holds the product: cell (b, r) at b * rows + r. */
  ghost predicate Holding(p: Product, out: Vec, b: nat, r: nat)
    requires p.Valid()
  {
    && b < p.batch && r < p.rows && Pos(b, r, p.rows) < |out|
    && out[Pos(b, r, p.rows)] == p.Cell(b, r)
  }

  /**
   * `quantized_matmul_rows`: for every batch size, row count, thread count and schedule, the output is the product with
   * the decoded matrix, and nothing beyond batch * rows is written.
   */
  method QuantizedMatmulRows(out: array<real>, kind: nat, weights: Data, inputs: Vec, batch: nat, rows: nat, cols: nat,
                             threads: nat, aligned: bool, order: seq<nat>) returns (r: Option<QuantError>)
    requires Schedule(order, ChunkCount(rows, ChunkSize(batch, rows, threads)))
    modifies out
    ensures r == Outcome(out.Length, kind, |weights|, |inputs|, batch, rows, cols)
    ensures r == None && Decodable(kind) ==>
      (var p := Operands(kind, weights, inputs, batch, rows, cols);
       p.Valid() && forall b: nat, k: nat :: b < batch && k < rows ==> Holding(p, out[..], b, k))
    ensures r != None ==> out[..] == old(out[..])
    ensures forall k :: Span(batch, rows) <= k < out.Length ==> out[k] == old(out[k])
  {
    r := Refusal(out.Length, kind, |weights|, |inputs|, batch, rows, cols);
    if r != None { return; }
    if !Works(batch, rows) {
      if Decodable(kind) { OperandsValid(out.Length, kind, weights, inputs, batch, rows, cols); }
      return;
    }
    if !Decodable(kind) { return Some(UnsupportedType(kind)); }
    OperandsValid(out.Length, kind, weights, inputs, batch, rows, cols);
    var p := Operands(kind, weights, inputs, batch, rows, cols);
    if batch == 1 {
      QuantizedMatvec(p, aligned, order, out);
      forall b: nat, k: nat | b < batch && k < rows ensures Holding(p, out[..], b, k) {
        assert Pos(0, k, rows) == k;
      }
    } else {
      BatchedProduct(p, threads, order, out);
    }
  }

  method BatchedProduct(p: Product, threads: nat, order: seq<nat>, out: array<real>)
    requires p.Valid() && p.batch > 1 && p.rows > 0 && Span(p.batch, p.rows) <= out.Length
    requires Schedule(order, ChunkCount(p.rows, ChunkSize(p.batch, p.rows, threads)))
    modifies out
    ensures forall b: nat, k: nat :: b < p.batch && k < p.rows ==> Holding(p, out[..], b, k)
    ensures forall k :: Span(p.batch, p.rows) <= k < out.Length ==> out[k] == old(out[k])
  {
    var across := p.batch > 8;
    var t := [];
    if across { t := TransposedInputs(p); }
    var rowMajor := new real[Span(p.rows, p.batch)](_ => 0.0);
    if p.rows >= PARALLEL_THRESHOLD && threads > 1 {
      ComputeChunks(p, t, across, ChunkSize(p.batch, p.rows, threads), order, rowMajor);
    } else {
      ComputeBatchedRows(p, t, 0, p.rows, across, rowMajor);
    }
    var rows := rowMajor[..];
    TransposeInto(rows, p.rows, p.batch, out);
    forall b: nat, k: nat | b < p.batch && k < p.rows ensures Holding(p, out[..], b, k) {
      CellMoved(p, rows, out[..], b, k);
    }
  }

  lemma CellMoved(p: Product, rows: Vec, out: Vec, b: nat, k: nat)
    requires p.Valid() && b < p.batch && k < p.rows && RowDone(p, rows, k) && Moved(rows, out, p.rows, p.batch, k, b)
    ensures Holding(p, out, b, k)
  {
    assert rows[Pos(k, b, p.batch)] == p.CellRow(k)[b];
  }

  method TransposedInputs(p: Product) returns (t: Vec)
    requires p.Valid()
    ensures Transposed(p, t)
  {
    var buffer := new real[Span(p.Cols(), p.batch)](_ => 0.0);
    TransposeInto(p.inputs, p.batch, p.Cols(), buffer);
    t := buffer[..];
  }

  /** A batch gives each input what it would get alone. */
  lemma BatchIsSingles(p: Product, single: Product, b: nat, r: nat)
    requires p.Valid() && b < p.batch && r < p.rows
    requires single == Product(p.kind, p.weights, p.Input(b), 1, p.rows, p.n)
    ensures single.Valid() && single.Cell(0, r) == p.Cell(b, r)
  {
    var cols := p.Cols();
    assert Span(1, cols) == cols;
    assert single.Input(0) == single.inputs[..cols];
    assert single.inputs[..cols] == single.inputs;
    assert single.Weights(r) == p.Weights(r);
  }
}
