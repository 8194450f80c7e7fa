/** The two kinds of layers of the hybrid model, with arbitrary arithmetic. */
module Layers {
  import opened Grid

  /** Activations and stored cells, as bit patterns. */
  type Vec = seq<int>

  /** What the KV cache keeps of one token in one attention layer. */
  datatype KvRow = KvRow(k: seq<int>, v: seq<int>)

  /** A layer works on each token alone (`pre`, `post`) except for one causal step in between:
      attention stores the token's KV row and looks at all rows up to it; a recurrent layer advances its cells. */
  datatype Layer =
    | Attention(pre: Vec -> Vec, query: (Vec, nat) -> Vec, row: (Vec, nat) -> KvRow, attend: (Vec, seq<KvRow>) -> Vec, post: (Vec, Vec) -> Vec)
    | Recurrent(pre: Vec -> Vec, advance: (seq<int>, Vec) -> seq<int>, emit: (seq<int>, Vec) -> Vec, post: (Vec, Vec) -> Vec)

  datatype LayerState = Kv(rows: seq<KvRow>) | Conv(cells: seq<int>)

  /** The layer's state after the token at position `pos`, whose prepared input is h. */
  function Next(l: Layer, s: LayerState, pos: nat, h: Vec): LayerState {
    match l
    case Attention(_, _, row, _, _) => Kv((if s.Kv? then s.rows else []) + [row(h, pos)])
    case Recurrent(_, advance, _, _) => Conv(advance(if s.Conv? then s.cells else [], h))
  }

  /** What the causal step makes of that token, given the state after it. */
  function Mixed(l: Layer, t: LayerState, pos: nat, h: Vec): Vec {
    match l
    case Attention(_, query, _, attend, _) => attend(query(h, pos), if t.Kv? then t.rows else [])
    case Recurrent(_, _, emit, _) => emit(if t.Conv? then t.cells else [], h)
  }

  function NextOf(layers: seq<Layer>): (nat, LayerState, nat, Vec) -> LayerState {
    (i: nat, s: LayerState, pos: nat, x: Vec) => if i < |layers| then Next(layers[i], s, pos, layers[i].pre(x)) else s
  }

  function OutOf(layers: seq<Layer>): (nat, LayerState, nat, Vec) -> Vec {
    (i: nat, s: LayerState, pos: nat, x: Vec) =>
      if i < |layers|
      then layers[i].post(x, Mixed(layers[i], Next(layers[i], s, pos, layers[i].pre(x)), pos, layers[i].pre(x)))
      else x
  }

  function RunOf(layers: seq<Layer>, init: seq<LayerState>, base: nat, xs: seq<Vec>): Run<LayerState, Vec> {
    Run(|layers|, NextOf(layers), OutOf(layers), init, base, xs)
  }

  lemma RunNext(layers: seq<Layer>, init: seq<LayerState>, base: nat, xs: seq<Vec>, i: nat, p: nat, pos: nat)
    requires |init| == |layers| && i < |layers| && p < |xs| && pos == base + p
    ensures var r := RunOf(layers, init, base, xs);
      StateAt(r, i, p + 1) == Next(layers[i], StateAt(r, i, p), pos, layers[i].pre(Act(r, i, p)))
  {
  }

  lemma RunOut(layers: seq<Layer>, init: seq<LayerState>, base: nat, xs: seq<Vec>, i: nat, p: nat, pos: nat)
    requires |init| == |layers| && i < |layers| && p < |xs| && pos == base + p
    ensures var r := RunOf(layers, init, base, xs);
      var h := layers[i].pre(Act(r, i, p));
      Act(r, i + 1, p) == layers[i].post(Act(r, i, p), Mixed(layers[i], StateAt(r, i, p + 1), pos, h))
  {
    RunNext(layers, init, base, xs, i, p, pos);
  }

  // ---------- the two kinds of layers, spelled out ----------

  ghost predicate RunHas(layers: seq<Layer>, r: Run<LayerState, Vec>, i: nat) {
    r == RunOf(layers, r.init, r.base, r.xs) && |r.init| == |layers| && i < |layers|
  }

  /** The rows an attention layer stores for the first n tokens of a run. */
  function RowsMade(l: Layer, r: Run<LayerState, Vec>, i: nat, n: nat): (rows: seq<KvRow>)
    requires l.Attention? && RunOk(r) && i < r.layers && n <= |r.xs|
    ensures |rows| == n
  {
    seq(n, q requires 0 <= q < n => l.row(l.pre(Act(r, i, q)), r.base + q))
  }

  /** A recurrent layer's cells after the first n tokens of a run. */
  function CellsMade(l: Layer, r: Run<LayerState, Vec>, i: nat, n: nat, cells: seq<int>): seq<int>
    requires l.Recurrent? && RunOk(r) && i < r.layers && n <= |r.xs|
  {
    if n == 0 then cells else l.advance(CellsMade(l, r, i, n - 1, cells), l.pre(Act(r, i, n - 1)))
  }

  lemma {:induction false} AttentionState(layers: seq<Layer>, r: Run<LayerState, Vec>, i: nat, n: nat)
    requires RunHas(layers, r, i) && layers[i].Attention? && r.init[i].Kv? && n <= |r.xs|
    ensures StateAt(r, i, n) == Kv(r.init[i].rows + RowsMade(layers[i], r, i, n))
  {
    if n == 0 {
      assert r.init[i].rows + RowsMade(layers[i], r, i, 0) == r.init[i].rows;
    } else {
      var last := n - 1;
      AttentionState(layers, r, i, last);
      RunNext(layers, r.init, r.base, r.xs, i, last, r.base + last);
      assert RowsMade(layers[i], r, i, n) == RowsMade(layers[i], r, i, last) + [layers[i].row(layers[i].pre(Act(r, i, last)), r.base + last)];
    }
  }

  lemma {:induction false} RecurrentState(layers: seq<Layer>, r: Run<LayerState, Vec>, i: nat, n: nat)
    requires RunHas(layers, r, i) && layers[i].Recurrent? && r.init[i].Conv? && n <= |r.xs|
    ensures StateAt(r, i, n) == Conv(CellsMade(layers[i], r, i, n, r.init[i].cells))
  {
    if n > 0 {
      var last := n - 1;
      RecurrentState(layers, r, i, last);
      RunNext(layers, r.init, r.base, r.xs, i, last, r.base + last);
    }
  }

  /** An attention layer lets a token look at the rows it started with and at those of the run up to the token's own. */
  lemma AttentionOutput(layers: seq<Layer>, r: Run<LayerState, Vec>, i: nat, p: nat)
    requires RunHas(layers, r, i) && layers[i].Attention? && r.init[i].Kv? && p < |r.xs|
    ensures var l, x := layers[i], Act(r, i, p);
      Act(r, i + 1, p) == l.post(x, l.attend(l.query(l.pre(x), r.base + p), r.init[i].rows + RowsMade(l, r, i, p + 1)))
  {
    AttentionState(layers, r, i, p + 1);
    RunOut(layers, r.init, r.base, r.xs, i, p, r.base + p);
  }

  /** A recurrent layer's output depends on its cells after the token itself. */
  lemma RecurrentOutput(layers: seq<Layer>, r: Run<LayerState, Vec>, i: nat, p: nat)
    requires RunHas(layers, r, i) && layers[i].Recurrent? && r.init[i].Conv? && p < |r.xs|
    ensures var l, x := layers[i], Act(r, i, p);
      Act(r, i + 1, p) == l.post(x, l.emit(CellsMade(l, r, i, p + 1, r.init[i].cells), l.pre(x)))
  {
    RecurrentState(layers, r, i, p + 1);
    RunOut(layers, r.init, r.base, r.xs, i, p, r.base + p);
  }
}
