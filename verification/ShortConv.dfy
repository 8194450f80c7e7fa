/** The gated short convolution: a rolling buffer per channel against the causal convolution of the whole history. */
module ShortConv {
  import opened Common
  import opened Layout
  import opened Vectors

  // ---------- the causal convolution ----------

  /** Channel d of the input k - kernel + 1 tokens away from the last one; zero before the first token. */
  function Tap(history: seq<Vec>, d: nat, kernel: nat, k: nat): real
    requires forall t :: 0 <= t < |history| ==> d < |history[t]|
  {
    var t := |history| - kernel + k;
    if 0 <= t < |history| then history[t][d] else 0.0
  }

  /** The weights as the layer finds them: per channel, shared by all channels, or uniform. */
  function WeightOf(w: Vec, dim: nat, kernel: nat, d: nat, k: nat): real
    requires d < dim && k < kernel
  {
    if |w| > 0 && |w| >= Span(dim, kernel) then
      SpanMono(d + 1, dim, kernel);
      w[Span(d, kernel) + k]
    else if |w| > 0 && |w| >= kernel then w[k]
    else 1.0 / kernel as real
  }

  /** The first n taps of channel d, weighted. */
  function Convolved(w: Vec, dim: nat, kernel: nat, history: seq<Vec>, d: nat, n: nat): real
    requires d < dim && n <= kernel && forall t :: 0 <= t < |history| ==> d < |history[t]|
  {
    if n == 0 then 0.0
    else Convolved(w, dim, kernel, history, d, n - 1) + Times(WeightOf(w, dim, kernel, d, n - 1), Tap(history, d, kernel, n - 1))
  }

  // ---------- the rolling buffer ----------

  /** Every row of the history has a value for every channel. */
  predicate Wide(history: seq<Vec>, dim: nat) {
    forall t :: 0 <= t < |history| ==> |history[t]| == dim
  }

  /** Cell k of channel d holds its k-th tap. */
  predicate Holds(cells: Vec, history: seq<Vec>, kernel: nat, d: nat, k: nat)
    requires k < kernel && Span(d + 1, kernel) <= |cells| && forall t :: 0 <= t < |history| ==> d < |history[t]|
  {
    cells[Span(d, kernel) + k] == Tap(history, d, kernel, k)
  }

  /** Channel d's cells hold its last `kernel` inputs. */
  predicate Rolled(cells: Vec, history: seq<Vec>, dim: nat, kernel: nat, d: nat) {
    && d < dim && Wide(history, dim) && Span(d + 1, kernel) <= |cells|
    && forall k :: 0 <= k < kernel ==> Holds(cells, history, kernel, d, k)
  }

  /** The weighted cells of one channel. */
  function Weighted(w: Vec, dim: nat, kernel: nat, cells: Vec, d: nat, n: nat): real
    requires d < dim && n <= kernel && Span(d + 1, kernel) <= |cells|
  {
    if n == 0 then 0.0
    else Weighted(w, dim, kernel, cells, d, n - 1) + Times(WeightOf(w, dim, kernel, d, n - 1), cells[Span(d, kernel) + n - 1])
  }

  lemma {:induction false} WeightedIsConvolved(w: Vec, dim: nat, kernel: nat, cells: Vec, history: seq<Vec>, d: nat, n: nat)
    requires Rolled(cells, history, dim, kernel, d) && n <= kernel
    ensures Weighted(w, dim, kernel, cells, d, n) == Convolved(w, dim, kernel, history, d, n)
  {
    if n > 0 {
      WeightedIsConvolved(w, dim, kernel, cells, history, d, n - 1);
      assert Holds(cells, history, kernel, d, n - 1);
    }
  }

  /** Cell i after channel d's cells have moved down by one and x has been put last. */
  function Shifted(was: Vec, kernel: nat, d: nat, x: real, i: nat): real
    requires kernel > 0 && Span(d + 1, kernel) <= |was| && i < |was|
  {
    if Span(d, kernel) <= i < Span(d, kernel) + (kernel - 1) then was[i + 1]
    else if i == Span(d, kernel) + (kernel - 1) then x
    else was[i]
  }

  predicate ShiftedIn(was: Vec, now: Vec, kernel: nat, d: nat, x: real) {
    && |now| == |was| && kernel > 0 && Span(d + 1, kernel) <= |was|
    && forall i :: 0 <= i < |was| ==> now[i] == Shifted(was, kernel, d, x, i)
  }

  /** The general path: shift the cells down one by one. */
  method ShiftGeneral(cells: array<real>, kernel: nat, d: nat, x: real)
    requires kernel > 0 && Span(d + 1, kernel) <= cells.Length
    modifies cells
    ensures ShiftedIn(old(cells[..]), cells[..], kernel, d, x)
  {
    var o := Span(d, kernel);
    for k := 0 to kernel - 1
      invariant forall i :: 0 <= i < cells.Length ==> cells[i] == if o <= i < o + k then old(cells[i + 1]) else old(cells[i])
    {
      cells[o + k] := cells[o + k + 1];
    }
    cells[o + kernel - 1] := x;
  }

  /** The fast path of kernel size three: no loops. */
  method ShiftThree(cells: array<real>, d: nat, x: real) returns (s0: real, s1: real)
    requires Span(d + 1, 3) <= cells.Length
    modifies cells
    ensures ShiftedIn(old(cells[..]), cells[..], 3, d, x)
    ensures s0 == cells[Span(d, 3)] && s1 == cells[Span(d, 3) + 1]
  {
    var o := Span(d, 3);
    s0, s1 := cells[o + 1], cells[o + 2];
    cells[o] := s0;
    cells[o + 1] := s1;
    cells[o + 2] := x;
  }

  method WeighGeneral(w: Vec, dim: nat, kernel: nat, cells: Vec, d: nat) returns (sum: real)
    requires d < dim && Span(d + 1, kernel) <= |cells|
    ensures sum == Weighted(w, dim, kernel, cells, d, kernel)
  {
    sum := 0.0;
    for k := 0 to kernel
      invariant sum == Weighted(w, dim, kernel, cells, d, k)
    {
      sum := sum + Times(WeightOf(w, dim, kernel, d, k), cells[Span(d, kernel) + k]);
    }
  }

  /** One channel of one token, on whichever path the layer takes. */
  method Channel(w: Vec, dim: nat, kernel: nat, cells: array<real>, d: nat, x: real) returns (sum: real)
    requires d < dim && kernel > 0 && cells.Length == Span(dim, kernel)
    modifies cells
    ensures ShiftedIn(old(cells[..]), cells[..], kernel, d, x)
    ensures sum == Weighted(w, dim, kernel, cells[..], d, kernel)
  {
    SpanMono(d + 1, dim, kernel);
    if kernel == 3 && |w| > 0 && |w| >= Span(dim, kernel) {
      var s0, s1 := ShiftThree(cells, d, x);
      sum := Times(w[Span(d, 3)], s0) + Times(w[Span(d, 3) + 1], s1) + Times(w[Span(d, 3) + 2], x);
      ThreeTaps(w, dim, cells[..], d);
    } else {
      ShiftGeneral(cells, kernel, d, x);
      sum := WeighGeneral(w, dim, kernel, cells[..], d);
    }
  }

  lemma ThreeTaps(w: Vec, dim: nat, cells: Vec, d: nat)
    requires d < dim && Span(d + 1, 3) <= |cells| && |w| > 0 && |w| >= Span(dim, 3)
    ensures Span(d, 3) + 2 < |w|
    ensures Weighted(w, dim, 3, cells, d, 3)
      == Times(w[Span(d, 3)], cells[Span(d, 3)]) + Times(w[Span(d, 3) + 1], cells[Span(d, 3) + 1]) + Times(w[Span(d, 3) + 2], cells[Span(d, 3) + 2])
  {
    SpanMono(d + 1, dim, 3);
    assert Weighted(w, dim, 3, cells, d, 1) == Weighted(w, dim, 3, cells, d, 0) + Times(w[Span(d, 3)], cells[Span(d, 3)]);
    assert Weighted(w, dim, 3, cells, d, 2) == Weighted(w, dim, 3, cells, d, 1) + Times(w[Span(d, 3) + 1], cells[Span(d, 3) + 1]);
  }

  // ---------- one token, all channels ----------

  lemma RolledOn(was: Vec, now: Vec, history: seq<Vec>, row: Vec, dim: nat, kernel: nat, d: nat)
    requires Rolled(was, history, dim, kernel, d) && |row| == dim && ShiftedIn(was, now, kernel, d, row[d])
    ensures Rolled(now, history + [row], dim, kernel, d)
  {
    var longer := history + [row];
    forall k | 0 <= k < kernel ensures Holds(now, longer, kernel, d, k) {
      if k < kernel - 1 { assert Holds(was, history, kernel, d, k + 1); }
    }
  }

  lemma RolledKept(was: Vec, now: Vec, history: seq<Vec>, dim: nat, kernel: nat, d: nat, e: nat, x: real)
    requires Rolled(was, history, dim, kernel, e) && d != e && ShiftedIn(was, now, kernel, d, x)
    ensures Rolled(now, history, dim, kernel, e)
  {
    if e < d { SpanMono(e + 1, d, kernel); } else { SpanMono(d + 1, e, kernel); }
    forall k | 0 <= k < kernel ensures Holds(now, history, kernel, e, k) {
      assert Holds(was, history, kernel, e, k);
    }
  }

  /** What channel e has seen once the channels below n have taken the new row. */
  function Seen(history: seq<Vec>, row: Vec, n: nat, e: nat): seq<Vec> {
    if e < n then history + [row] else history
  }

  predicate Halfway(cells: Vec, history: seq<Vec>, row: Vec, dim: nat, kernel: nat, n: nat) {
    forall e :: 0 <= e < dim ==> Rolled(cells, Seen(history, row, n, e), dim, kernel, e)
  }

  lemma HalfwayOn(was: Vec, now: Vec, history: seq<Vec>, row: Vec, dim: nat, kernel: nat, n: nat, next: nat)
    requires Halfway(was, history, row, dim, kernel, n) && n < dim && next == n + 1 && |row| == dim && ShiftedIn(was, now, kernel, n, row[n])
    ensures Halfway(now, history, row, dim, kernel, next)
  {
    forall e | 0 <= e < dim ensures Rolled(now, Seen(history, row, next, e), dim, kernel, e) {
      assert Rolled(was, Seen(history, row, n, e), dim, kernel, e);
      if e == n {
        RolledOn(was, now, history, row, dim, kernel, e);
      } else {
        RolledKept(was, now, Seen(history, row, n, e), dim, kernel, n, e, row[n]);
      }
    }
  }

  /** All channels hold their last inputs. */
  predicate Remembers(cells: Vec, history: seq<Vec>, dim: nat, kernel: nat) {
    forall d :: 0 <= d < dim ==> Rolled(cells, history, dim, kernel, d)
  }

  /** One token: `row` is B * X and `gate` is C; the output is the gated causal convolution of the whole history. */
  method ConvToken(w: Vec, dim: nat, kernel: nat, cells: array<real>, row: Vec, gate: Vec, ghost history: seq<Vec>) returns (out: Vec)
    requires kernel > 0 && cells.Length == Span(dim, kernel) && |row| == |gate| == dim && Wide(history, dim)
    requires Remembers(cells[..], history, dim, kernel)
    modifies cells
    ensures Wide(history + [row], dim) && Remembers(cells[..], history + [row], dim, kernel)
    ensures |out| == dim && forall d :: 0 <= d < dim ==> out[d] == Times(gate[d], Convolved(w, dim, kernel, history + [row], d, kernel))
  {
    out := [];
    ghost var longer := history + [row];
    HalfwayStart(cells[..], history, row, dim, kernel);
    for d := 0 to dim
      invariant Halfway(cells[..], history, row, dim, kernel, d) && |out| == d
      invariant forall e :: 0 <= e < d ==> out[e] == Times(gate[e], Convolved(w, dim, kernel, longer, e, kernel))
    {
      var sum := ConvChannel(w, dim, kernel, cells, row, history, d, d + 1);
      out := out + [Times(gate[d], sum)];
    }
    HalfwayDone(cells[..], history, row, dim, kernel);
  }

  method ConvChannel(w: Vec, dim: nat, kernel: nat, cells: array<real>, row: Vec, ghost history: seq<Vec>, d: nat, ghost next: nat) returns (sum: real)
    requires kernel > 0 && cells.Length == Span(dim, kernel) && |row| == dim && Wide(history, dim) && d < dim && next == d + 1
    requires Halfway(cells[..], history, row, dim, kernel, d)
    modifies cells
    ensures Halfway(cells[..], history, row, dim, kernel, next) && Wide(history + [row], dim)
    ensures sum == Convolved(w, dim, kernel, history + [row], d, kernel)
  {
    ghost var was := cells[..];
    sum := Channel(w, dim, kernel, cells, d, row[d]);
    HalfwayOn(was, cells[..], history, row, dim, kernel, d, next);
    assert Rolled(cells[..], Seen(history, row, next, d), dim, kernel, d);
    WeightedIsConvolved(w, dim, kernel, cells[..], history + [row], d, kernel);
  }

  lemma HalfwayStart(cells: Vec, history: seq<Vec>, row: Vec, dim: nat, kernel: nat)
    requires Remembers(cells, history, dim, kernel)
    ensures Halfway(cells, history, row, dim, kernel, 0)
  {
    forall e | 0 <= e < dim ensures Rolled(cells, Seen(history, row, 0, e), dim, kernel, e) {
      assert Rolled(cells, history, dim, kernel, e);
    }
  }

  lemma HalfwayDone(cells: Vec, history: seq<Vec>, row: Vec, dim: nat, kernel: nat)
    requires Halfway(cells, history, row, dim, kernel, dim)
    ensures Remembers(cells, history + [row], dim, kernel)
  {
    forall d | 0 <= d < dim ensures Rolled(cells, history + [row], dim, kernel, d) {
      assert Rolled(cells, Seen(history, row, dim, d), dim, kernel, d);
    }
  }

  /** Reset cells remember the empty history. */
  lemma ZeroRemembers(cells: Vec, dim: nat, kernel: nat)
    requires |cells| == Span(dim, kernel) && forall i :: 0 <= i < |cells| ==> cells[i] == 0.0
    ensures Remembers(cells, [], dim, kernel)
  {
    forall d | 0 <= d < dim ensures Rolled(cells, [], dim, kernel, d) {
      SpanMono(d + 1, dim, kernel);
    }
  }

  // ---------- a tile ----------

  /** Row i of a tile is the convolution of the history up to it. */
  predicate TileRow(w: Vec, dim: nat, kernel: nat, history: seq<Vec>, rows: seq<Vec>, gates: seq<Vec>, i: nat, out: Vec)
    requires i < |rows| == |gates|
  {
    && Wide(history + rows[..i + 1], dim) && |gates[i]| == dim && |out| == dim
    && forall d :: 0 <= d < dim ==> out[d] == Times(gates[i][d], Convolved(w, dim, kernel, history + rows[..i + 1], d, kernel))
  }

  /** A tile advances the cells row by row: it yields exactly what its tokens would yield one at a time. */
  method ConvTile(w: Vec, dim: nat, kernel: nat, cells: array<real>, rows: seq<Vec>, gates: seq<Vec>, ghost history: seq<Vec>) returns (outs: seq<Vec>)
    requires kernel > 0 && cells.Length == Span(dim, kernel) && |gates| == |rows| && Wide(rows, dim) && Wide(gates, dim)
    requires Wide(history, dim) && Remembers(cells[..], history, dim, kernel)
    modifies cells
    ensures Remembers(cells[..], history + rows, dim, kernel)
    ensures |outs| == |rows| && forall i :: 0 <= i < |rows| ==> TileRow(w, dim, kernel, history, rows, gates, i, outs[i])
  {
    outs := [];
    assert history + rows[..0] == history;
    for i := 0 to |rows|
      invariant |outs| == i && Wide(history + rows[..i], dim) && Remembers(cells[..], history + rows[..i], dim, kernel)
      invariant forall j :: 0 <= j < i ==> TileRow(w, dim, kernel, history, rows, gates, j, outs[j])
    {
      assert (history + rows[..i]) + [rows[i]] == history + rows[..i + 1];
      var out := ConvToken(w, dim, kernel, cells, rows[i], gates[i], history + rows[..i]);
      outs := outs + [out];
    }
    assert rows[..|rows|] == rows;
  }

  // ---------- the whole layer ----------

  /** What the in-projection of the normalised activation is cut into. */
  datatype Projection = Projection(b: Vec, c: Vec, x: Vec)

  /** The layer's arithmetic on single tokens: norm and in-projection before the convolution, out-projection, residual and
      feed-forward after it. */
  datatype Block = Block(project: Vec -> Vec, finish: (Vec, Vec) -> Vec)

  ghost predicate BlockOk(block: Block, dim: nat) {
    forall x :: |block.project(x)| == 3 * dim
  }

  /** B, C and X stand one after the other. */
  function Cut(block: Block, dim: nat, x: Vec): (p: Projection)
    requires BlockOk(block, dim)
    ensures |p.b| == |p.c| == |p.x| == dim
  {
    var flat := block.project(x);
    assert |flat| == 3 * dim;
    Projection(flat[..dim], flat[dim..2 * dim], flat[2 * dim..])
  }

  /** The convolution's input: B times X, per channel. */
  function Product(p: Projection): (row: Vec)
    requires |p.b| == |p.x|
    ensures |row| == |p.b|
  {
    seq(|p.b|, d requires 0 <= d < |p.b| => Times(p.b[d], p.x[d]))
  }

  /** C times the convolution of the history, per channel. */
  function Gated(w: Vec, dim: nat, kernel: nat, history: seq<Vec>, gate: Vec): (out: Vec)
    requires Wide(history, dim) && |gate| == dim
    ensures |out| == dim
  {
    seq(dim, d requires 0 <= d < dim => Times(gate[d], Convolved(w, dim, kernel, history, d, kernel)))
  }

  /** The rows that the activations feed to the convolution. */
  function Inputs(block: Block, dim: nat, xs: seq<Vec>): (rows: seq<Vec>)
    requires BlockOk(block, dim)
    ensures |rows| == |xs| && Wide(rows, dim)
  {
    seq(|xs|, i requires 0 <= i < |xs| => Product(Cut(block, dim, xs[i])))
  }

  /** What the layer makes of the last of the activations xs, after a history of rows. A layer without taps passes it on. */
  function Output(block: Block, w: Vec, dim: nat, kernel: nat, history: seq<Vec>, xs: seq<Vec>): Vec
    requires BlockOk(block, dim) && Wide(history, dim) && |xs| > 0
  {
    var x := xs[|xs| - 1];
    if kernel == 0 then x else block.finish(x, Gated(w, dim, kernel, history + Inputs(block, dim, xs), Cut(block, dim, x).c))
  }

  method Multiply(p: Projection) returns (row: Vec)
    requires |p.b| == |p.x|
    ensures row == Product(p)
  {
    row := [];
    for d := 0 to |p.b|
      invariant |row| == d && forall e :: 0 <= e < d ==> row[e] == Times(p.b[e], p.x[e])
    {
      row := row + [Times(p.b[d], p.x[d])];
    }
  }

  /** `ssm_forward`: one token. Without taps nothing is touched. */
  method SsmForward(block: Block, w: Vec, dim: nat, kernel: nat, cells: array<real>, x: Vec, ghost history: seq<Vec>) returns (y: Vec)
    requires BlockOk(block, dim) && cells.Length == Span(dim, kernel) && Wide(history, dim)
    requires Remembers(cells[..], history, dim, kernel)
    modifies cells
    ensures Remembers(cells[..], history + Inputs(block, dim, [x]), dim, kernel)
    ensures y == Output(block, w, dim, kernel, history, [x])
    ensures kernel == 0 ==> cells[..] == old(cells[..]) && y == x
  {
    if kernel == 0 {
      NothingToRemember(cells[..], history + Inputs(block, dim, [x]), dim);
      return x;
    }
    var p := Cut(block, dim, x);
    var row := Multiply(p);
    var out := ConvToken(w, dim, kernel, cells, row, p.c, history);
    assert Inputs(block, dim, [x]) == [row];
    assert out == Gated(w, dim, kernel, history + [row], p.c);
    y := block.finish(x, out);
  }

  lemma NothingToRemember(cells: Vec, history: seq<Vec>, dim: nat)
    requires Wide(history, dim)
    ensures Remembers(cells, history, dim, 0)
  {
    forall d | 0 <= d < dim ensures Rolled(cells, history, dim, 0, d) {
      SpanIs(d + 1, 0);
    }
  }

  datatype TileError = RowCount | Adapters

  /** Output i is the one of the first i + 1 tokens, one at a time. */
  ghost predicate TileOutput(block: Block, w: Vec, dim: nat, kernel: nat, history: seq<Vec>, xs: seq<Vec>, i: nat, y: Vec)
    requires BlockOk(block, dim) && Wide(history, dim)
  {
    i < |xs| && y == Output(block, w, dim, kernel, history, xs[..i + 1])
  }

  ghost predicate TileDone(block: Block, w: Vec, dim: nat, kernel: nat, history: seq<Vec>, xs: seq<Vec>, ys: seq<Vec>)
    requires BlockOk(block, dim) && Wide(history, dim)
  {
    |ys| == |xs| && forall i :: 0 <= i < |xs| ==> TileOutput(block, w, dim, kernel, history, xs, i, ys[i])
  }

  /** `ssm_forward_tile`: the first n rows of a tile of activations. What is refused leaves everything as it was. */
  method SsmForwardTile(block: Block, w: Vec, dim: nat, kernel: nat, cells: array<real>, tile: seq<Vec>, n: nat, adapters: bool, ghost history: seq<Vec>)
    returns (r: Result<seq<Vec>, TileError>)
    requires BlockOk(block, dim) && cells.Length == Span(dim, kernel) && Wide(history, dim)
    requires Remembers(cells[..], history, dim, kernel)
    modifies cells
    ensures n == 0 || n > |tile| ==> r == Err(RowCount)
    ensures 0 < n <= |tile| && adapters ==> r == Err(Adapters)
    ensures r.Ok? <==> 0 < n <= |tile| && !adapters
    ensures r.Err? || kernel == 0 ==> cells[..] == old(cells[..])
    ensures r.Ok? ==> TileDone(block, w, dim, kernel, history, tile[..n], r.value)
    ensures r.Ok? ==> Remembers(cells[..], history + Inputs(block, dim, tile[..n]), dim, kernel)
  {
    if n == 0 || n > |tile| { return Err(RowCount); }
    if adapters { return Err(Adapters); }
    if kernel == 0 {
      NothingToRemember(cells[..], history + Inputs(block, dim, tile[..n]), dim);
      return Ok(tile[..n]);
    }
    var ys := TileRows(block, w, dim, kernel, cells, tile[..n], history);
    r := Ok(ys);
  }

  /** All rows are projected first, then convolved in token order, then finished. */
  method TileRows(block: Block, w: Vec, dim: nat, kernel: nat, cells: array<real>, xs: seq<Vec>, ghost history: seq<Vec>) returns (ys: seq<Vec>)
    requires BlockOk(block, dim) && kernel > 0 && cells.Length == Span(dim, kernel) && Wide(history, dim)
    requires Remembers(cells[..], history, dim, kernel)
    modifies cells
    ensures TileDone(block, w, dim, kernel, history, xs, ys)
    ensures Remembers(cells[..], history + Inputs(block, dim, xs), dim, kernel)
  {
    var rows, gates := ProjectRows(block, dim, xs);
    var outs := ConvTile(w, dim, kernel, cells, rows, gates, history);
    ys := FinishRows(block, w, dim, kernel, xs, rows, gates, outs, history);
  }

  method FinishRows(block: Block, ghost w: Vec, ghost dim: nat, ghost kernel: nat, xs: seq<Vec>, ghost rows: seq<Vec>, ghost gates: seq<Vec>,
      outs: seq<Vec>, ghost history: seq<Vec>)
    returns (ys: seq<Vec>)
    requires BlockOk(block, dim) && kernel > 0 && Wide(history, dim) && rows == Inputs(block, dim, xs) && |outs| == |gates| == |xs|
    requires forall i :: 0 <= i < |xs| ==> gates[i] == Cut(block, dim, xs[i]).c
    requires forall i :: 0 <= i < |xs| ==> TileRow(w, dim, kernel, history, rows, gates, i, outs[i])
    ensures TileDone(block, w, dim, kernel, history, xs, ys)
  {
    ys := [];
    for i := 0 to |xs|
      invariant |ys| == i
      invariant forall j :: 0 <= j < i ==> TileOutput(block, w, dim, kernel, history, xs, j, ys[j])
    {
      RowOutput(block, w, dim, kernel, history, xs, rows, gates, i, outs[i]);
      ys := ys + [block.finish(xs[i], outs[i])];
    }
  }

  method ProjectRows(block: Block, dim: nat, xs: seq<Vec>) returns (rows: seq<Vec>, gates: seq<Vec>)
    requires BlockOk(block, dim)
    ensures rows == Inputs(block, dim, xs) && Wide(gates, dim)
    ensures |gates| == |xs| && forall i :: 0 <= i < |xs| ==> gates[i] == Cut(block, dim, xs[i]).c
  {
    rows, gates := [], [];
    for i := 0 to |xs|
      invariant |rows| == |gates| == i
      invariant forall j :: 0 <= j < i ==> rows[j] == Product(Cut(block, dim, xs[j])) && gates[j] == Cut(block, dim, xs[j]).c
    {
      var p := Cut(block, dim, xs[i]);
      var row := Multiply(p);
      rows, gates := rows + [row], gates + [p.c];
    }
  }

  lemma RowOutput(block: Block, w: Vec, dim: nat, kernel: nat, history: seq<Vec>, xs: seq<Vec>, rows: seq<Vec>, gates: seq<Vec>, i: nat, out: Vec)
    requires BlockOk(block, dim) && kernel > 0 && Wide(history, dim) && i < |xs| == |gates|
    requires rows == Inputs(block, dim, xs) && gates[i] == Cut(block, dim, xs[i]).c
    requires TileRow(w, dim, kernel, history, rows, gates, i, out)
    ensures TileOutput(block, w, dim, kernel, history, xs, i, block.finish(xs[i], out))
  {
    assert Inputs(block, dim, xs[..i + 1]) == rows[..i + 1];
    assert out == Gated(w, dim, kernel, history + rows[..i + 1], gates[i]);
  }

  // ---------- in plain sums ----------

  /** Channel d's input t tokens after the first: B times X of the in-projection; zero before the first token. */
  function PlainInput(block: Block, dim: nat, xs: seq<Vec>, d: nat, t: int): real {
    if 0 <= t < |xs| then Times(Cell(block.project(xs[t]), d), Cell(block.project(xs[t]), 2 * dim + d)) else 0.0
  }

  /** Weight k of channel d: its own, or the one all channels share, or an equal share. */
  function PlainWeight(w: Vec, dim: nat, kernel: nat, d: nat, k: nat): real
    requires kernel > 0
  {
    if |w| > 0 && |w| >= Span(dim, kernel) then Cell(w, Span(d, kernel) + k)
    else if |w| > 0 && |w| >= kernel then Cell(w, k)
    else 1.0 / kernel as real
  }

  /** The k-th tap looks back to the token kernel - 1 - k before the last. */
  function PlainTerms(block: Block, w: Vec, dim: nat, kernel: nat, xs: seq<Vec>, d: nat): nat -> real
    requires kernel > 0
  {
    (k: nat) => Times(PlainWeight(w, dim, kernel, d, k), PlainInput(block, dim, xs, d, |xs| - kernel + k))
  }

  function PlainOut(block: Block, w: Vec, dim: nat, kernel: nat, xs: seq<Vec>): (out: Vec)
    requires kernel > 0 && |xs| > 0
    ensures |out| == dim
  {
    seq(dim, d requires 0 <= d < dim =>
      Times(Cell(block.project(xs[|xs| - 1]), dim + d), SumOf(kernel, PlainTerms(block, w, dim, kernel, xs, d))))
  }

  lemma PlainTermIs(block: Block, w: Vec, dim: nat, kernel: nat, xs: seq<Vec>, d: nat, k: nat)
    requires BlockOk(block, dim) && d < dim && k < kernel
    ensures PlainTerms(block, w, dim, kernel, xs, d)(k) == Times(WeightOf(w, dim, kernel, d, k), Tap(Inputs(block, dim, xs), d, kernel, k))
  {
    var t := |xs| - kernel + k;
    if |w| > 0 && |w| >= Span(dim, kernel) { SpanMono(d + 1, dim, kernel); }
    if 0 <= t < |xs| {
      var flat := block.project(xs[t]);
      assert |flat| == 3 * dim;
      assert Inputs(block, dim, xs)[t][d] == Times(flat[d], flat[2 * dim + d]);
    }
  }

  lemma {:induction false} ConvolvedIs(block: Block, w: Vec, dim: nat, kernel: nat, xs: seq<Vec>, d: nat, n: nat)
    requires BlockOk(block, dim) && d < dim && n <= kernel && kernel > 0
    ensures Convolved(w, dim, kernel, Inputs(block, dim, xs), d, n) == SumOf(n, PlainTerms(block, w, dim, kernel, xs, d))
  {
    if n > 0 {
      ConvolvedIs(block, w, dim, kernel, xs, d, n - 1);
      PlainTermIs(block, w, dim, kernel, xs, d, n - 1);
    }
  }

  /** From reset cells the layer's output for a token is finished from C times the weighted sum of the last products B times X,
      channel by channel. */
  lemma OutputIs(block: Block, w: Vec, dim: nat, kernel: nat, xs: seq<Vec>)
    requires BlockOk(block, dim) && kernel > 0 && |xs| > 0
    ensures Output(block, w, dim, kernel, [], xs) == block.finish(xs[|xs| - 1], PlainOut(block, w, dim, kernel, xs))
  {
    var x, rows := xs[|xs| - 1], Inputs(block, dim, xs);
    assert [] + rows == rows;
    var flat := block.project(x);
    assert |flat| == 3 * dim;
    forall d | 0 <= d < dim ensures Gated(w, dim, kernel, rows, Cut(block, dim, x).c)[d] == PlainOut(block, w, dim, kernel, xs)[d] {
      ConvolvedIs(block, w, dim, kernel, xs, d, kernel);
    }
    assert Gated(w, dim, kernel, rows, Cut(block, dim, x).c) == PlainOut(block, w, dim, kernel, xs);
  }
}
