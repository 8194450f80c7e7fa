/** Filling the grid: one token through all the layers, or a tile layer by layer. */
module Forward {
  import opened KvCache
  import opened Grid
  import opened Layers
  import opened HybridMemory

  /** r is a run of m's layers that fits the context. */
  ghost predicate RunFits(m: Model, r: Run<LayerState, Vec>) {
    && r == RunOf(m.layers, r.init, r.base, r.xs) && RunOk(r) && r.base + |r.xs| <= m.g.maxSeq
  }

  /** Layer i's memory holds its state after n tokens of the run. */
  ghost predicate Full(m: Model, mem: Memory, r: Run<LayerState, Vec>, i: nat, n: nat)
    requires SlotsOk(m) && MemoryOk(m, mem) && RunFits(m, r)
  {
    i < |m.layers| && n <= |r.xs| && View(m, mem, i, r.base + n) == StateAt(r, i, n)
  }

  /** The layers below i have seen b tokens, layer i has seen c, those above it a. */
  function Level(i: nat, a: nat, c: nat, b: nat, j: nat): nat {
    if j < i then b else if j == i then c else a
  }

  ghost predicate Filled(m: Model, mem: Memory, r: Run<LayerState, Vec>, i: nat, a: nat, c: nat, b: nat)
    requires SlotsOk(m) && MemoryOk(m, mem) && RunFits(m, r)
  {
    forall j :: 0 <= j < |m.layers| ==> Full(m, mem, r, j, Level(i, a, c, b, j))
  }

  /** All layers have seen n tokens. */
  ghost predicate Synced(m: Model, mem: Memory, r: Run<LayerState, Vec>, n: nat)
    requires SlotsOk(m) && MemoryOk(m, mem) && RunFits(m, r)
  {
    forall j :: 0 <= j < |m.layers| ==> Full(m, mem, r, j, n)
  }

  lemma StepFillsOwn(m: Model, mem: Memory, r: Run<LayerState, Vec>, i: nat, c: nat, h: Vec, pos: nat)
    requires ModelOk(m) && MemoryOk(m, mem) && RunFits(m, r) && Full(m, mem, r, i, c)
    requires i < |m.layers| && c < |r.xs| && h == m.layers[i].pre(Act(r, i, c)) && pos == r.base + c
    ensures Full(m, Step(m, mem, i, pos, h), r, i, c + 1)
  {
    var after := Step(m, mem, i, pos, h);
    StepView(m, mem, i, pos, h);
    RunNext(m.layers, r.init, r.base, r.xs, i, c, pos);
    assert View(m, after, i, pos + 1) == StateAt(r, i, c + 1);
  }

  lemma StepKeepsOther(m: Model, mem: Memory, r: Run<LayerState, Vec>, i: nat, pos: nat, h: Vec, j: nat, n: nat)
    requires ModelOk(m) && MemoryOk(m, mem) && RunFits(m, r) && Full(m, mem, r, j, n)
    requires i < |m.layers| && pos < m.g.maxSeq && j != i
    ensures Full(m, Step(m, mem, i, pos, h), r, j, n)
  {
    StepOther(m, mem, i, pos, h, j, r.base + n);
  }

  /** One causal step of layer i moves it, and it alone, one token on. */
  lemma StepFills(m: Model, mem: Memory, r: Run<LayerState, Vec>, i: nat, a: nat, c: nat, b: nat, pos: nat, h: Vec, after: Memory)
    requires ModelOk(m) && MemoryOk(m, mem) && RunFits(m, r) && Filled(m, mem, r, i, a, c, b)
    requires i < |m.layers| && c < |r.xs| && pos == r.base + c
    requires h == m.layers[i].pre(Act(r, i, c)) && after == Step(m, mem, i, pos, h)
    ensures MemoryOk(m, after) && Filled(m, after, r, i, a, c + 1, b)
  {
    var c1 := c + 1;
    forall j | 0 <= j < |m.layers| ensures Full(m, after, r, j, Level(i, a, c1, b, j)) {
      assert Full(m, mem, r, j, Level(i, a, c, b, j));
      if j == i {
        StepFillsOwn(m, mem, r, i, c, h, pos);
      } else {
        StepKeepsOther(m, mem, r, i, pos, h, j, Level(i, a, c, b, j));
      }
    }
  }

  lemma FilledNext(m: Model, mem: Memory, r: Run<LayerState, Vec>, i: nat, a: nat, b: nat)
    requires SlotsOk(m) && MemoryOk(m, mem) && RunFits(m, r) && Filled(m, mem, r, i, a, b, b)
    ensures Filled(m, mem, r, i + 1, a, a, b)
  {
    var i1 := i + 1;
    forall j | 0 <= j < |m.layers| ensures Full(m, mem, r, j, Level(i1, a, a, b, j)) {
      assert Full(m, mem, r, j, Level(i, a, b, b, j));
    }
  }

  lemma SyncedFilled(m: Model, mem: Memory, r: Run<LayerState, Vec>, a: nat, b: nat)
    requires SlotsOk(m) && MemoryOk(m, mem) && RunFits(m, r)
    ensures Synced(m, mem, r, a) ==> Filled(m, mem, r, 0, a, a, b)
    ensures Filled(m, mem, r, |m.layers|, a, a, b) ==> Synced(m, mem, r, b)
  {
    if Filled(m, mem, r, |m.layers|, a, a, b) {
      forall j | 0 <= j < |m.layers| ensures Full(m, mem, r, j, b) {
        assert Full(m, mem, r, j, Level(|m.layers|, a, a, b, j));
      }
    }
  }

  /** What layer i made of token c, read off the memory after its step. */
  function Emitted(m: Model, mem: Memory, i: nat, pos: nat, h: Vec): Vec
    requires SlotsOk(m) && MemoryOk(m, mem) && i < |m.layers| && pos < m.g.maxSeq
  {
    Mixed(m.layers[i], View(m, mem, i, pos + 1), pos, h)
  }

  lemma EmittedIs(m: Model, mem: Memory, r: Run<LayerState, Vec>, i: nat, c: nat, x: Vec)
    requires ModelOk(m) && MemoryOk(m, mem) && RunFits(m, r) && i < |m.layers| && c < |r.xs|
    requires Full(m, mem, r, i, c + 1) && x == Act(r, i, c)
    ensures m.layers[i].post(x, Emitted(m, mem, i, r.base + c, m.layers[i].pre(x))) == Act(r, i + 1, c)
  {
    RunOut(m.layers, r.init, r.base, r.xs, i, c, r.base + c);
  }

  /** b keeps a's cells that no layer uses. */
  ghost predicate Spared(m: Model, a: Memory, b: Memory) {
    && MemoryOk(m, a) && MemoryOk(m, b) && a.hidden == b.hidden
    && forall i :: 0 <= i < |m.layers| && m.layers[i].Attention? ==> CellsOf(m, a, i) == CellsOf(m, b, i)
  }

  lemma SparedChain(m: Model, a: Memory, b: Memory, c: Memory)
    requires Spared(m, a, b) && Spared(m, b, c)
    ensures Spared(m, a, c)
  {
  }

  lemma StepSpares(m: Model, mem: Memory, i: nat, pos: nat, h: Vec)
    requires ModelOk(m) && MemoryOk(m, mem) && i < |m.layers| && pos < m.g.maxSeq
    ensures Spared(m, mem, Step(m, mem, i, pos, h))
  {
    assert Fits(m.layers[i], m.g, m.cells);
    var after := Step(m, mem, i, pos, h);
    forall j | 0 <= j < |m.layers| && m.layers[j].Attention? ensures CellsOf(m, mem, j) == CellsOf(m, after, j) {
      if m.layers[i].Recurrent? {
        AdvancedCells(m, mem, i, m.layers[i].advance(CellsOf(m, mem, i), h), j);
      }
    }
  }

  /** The activations of consecutive tokens on entry to layer i. */
  ghost predicate Acts(r: Run<LayerState, Vec>, i: nat, from: nat, xs: seq<Vec>) {
    && RunOk(r) && i <= r.layers && from + |xs| <= |r.xs|
    && forall q :: 0 <= q < |xs| ==> xs[q] == Act(r, i, from + q)
  }

  lemma LastAct(r: Run<LayerState, Vec>, i: nat, from: nat, xs: seq<Vec>, last: nat)
    requires Acts(r, i, from, xs) && |xs| > 0 && last == from + (|xs| - 1)
    ensures last < |r.xs| && xs[|xs| - 1] == Act(r, i, last)
  {
  }

  /** The step yields the activation for the next layer. */
  lemma StepEmits(m: Model, mem: Memory, r: Run<LayerState, Vec>, i: nat, a: nat, c: nat, b: nat, pos: nat, x: Vec, h: Vec, after: Memory)
    requires ModelOk(m) && MemoryOk(m, mem) && RunFits(m, r) && Filled(m, mem, r, i, a, c, b)
    requires i < |m.layers| && c < |r.xs| && pos == r.base + c && x == Act(r, i, c)
    requires h == m.layers[i].pre(x) && after == Step(m, mem, i, pos, h)
    ensures m.layers[i].post(x, Emitted(m, after, i, pos, h)) == Act(r, i + 1, c)
  {
    assert Full(m, mem, r, i, c) by { assert Full(m, mem, r, i, Level(i, a, c, b, i)); }
    StepFillsOwn(m, mem, r, i, c, h, pos);
    EmittedIs(m, after, r, i, c, x);
  }

  // ---------- the rows of a tile ----------

  ghost predicate Prepared(l: Layer, current: seq<Vec>, prepared: seq<Vec>) {
    |prepared| == |current| && forall q :: 0 <= q < |current| ==> prepared[q] == l.pre(current[q])
  }

  /** The rows mixed so far lead to the next layer's activations. */
  ghost predicate MixedTo(l: Layer, r: Run<LayerState, Vec>, i: nat, from: nat, current: seq<Vec>, mixed: seq<Vec>) {
    && RunOk(r) && i < r.layers && |mixed| <= |current| && from + |current| <= |r.xs|
    && forall q :: 0 <= q < |mixed| ==> l.post(current[q], mixed[q]) == Act(r, i + 1, from + q)
  }

  lemma MixedNext(l: Layer, r: Run<LayerState, Vec>, i: nat, from: nat, current: seq<Vec>, mixed: seq<Vec>, out: Vec, at: nat)
    requires MixedTo(l, r, i, from, current, mixed) && |mixed| < |current| && at == from + |mixed|
    requires l.post(current[|mixed|], out) == Act(r, i + 1, at)
    ensures MixedTo(l, r, i, from, current, mixed + [out])
  {
  }

  lemma MixedActs(l: Layer, r: Run<LayerState, Vec>, i: nat, from: nat, current: seq<Vec>, mixed: seq<Vec>, next: seq<Vec>)
    requires MixedTo(l, r, i, from, current, mixed) && |mixed| == |current| == |next|
    requires forall q :: 0 <= q < |next| ==> next[q] == l.post(current[q], mixed[q])
    ensures Acts(r, i + 1, from, next)
  {
  }

  method PrepareRows(l: Layer, current: seq<Vec>) returns (prepared: seq<Vec>)
    ensures Prepared(l, current, prepared)
  {
    prepared := [];
    for row := 0 to |current|
      invariant |prepared| == row && forall q :: 0 <= q < row ==> prepared[q] == l.pre(current[q])
    {
      prepared := prepared + [l.pre(current[row])];
    }
  }

  method FinishRows(l: Layer, current: seq<Vec>, mixed: seq<Vec>) returns (next: seq<Vec>)
    requires |mixed| == |current|
    ensures |next| == |current| && forall q :: 0 <= q < |next| ==> next[q] == l.post(current[q], mixed[q])
  {
    next := [];
    for row := 0 to |current|
      invariant |next| == row && forall q :: 0 <= q < row ==> next[q] == l.post(current[q], mixed[q])
    {
      next := next + [l.post(current[row], mixed[row])];
    }
  }

  /** The model's memory and the current activation. */
  class Engine {
    const m: Model
    var mem: Memory
    var x: Vec

    ghost predicate Valid()
      reads this
    {
      MemoryOk(m, mem)
    }

    constructor (m: Model, mem: Memory)
      requires MemoryOk(m, mem)
      ensures Valid() && this.m == m && this.mem == mem
    {
      this.m, this.mem, x := m, mem, [];
    }

    /** Token-major: the token at `pos` through all the layers. */
    method ForwardStep(embedded: Vec, pos: nat, ghost r: Run<LayerState, Vec>, ghost p: nat)
      requires Valid() && ModelOk(m) && RunFits(m, r) && p < |r.xs| && pos == r.base + p && embedded == r.xs[p]
      requires Synced(m, mem, r, p)
      modifies this`mem, this`x
      ensures Spared(m, old(mem), mem)
      ensures Valid() && Synced(m, mem, r, p + 1) && x == Act(r, |m.layers|, p)
    {
      x := embedded;
      SyncedFilled(m, mem, r, p, p + 1);
      for i := 0 to |m.layers|
        invariant Spared(m, old(mem), mem)
        invariant Valid() && Filled(m, mem, r, i, p, p, p + 1) && x == Act(r, i, p)
      {
        ghost var before := mem;
        LayerStep(i, pos, r, p);
        SparedChain(m, old(mem), before, mem);
      }
      SyncedFilled(m, mem, r, p, p + 1);
    }

    method LayerStep(i: nat, pos: nat, ghost r: Run<LayerState, Vec>, ghost p: nat)
      requires Valid() && ModelOk(m) && RunFits(m, r) && i < |m.layers| && p < |r.xs| && pos == r.base + p
      requires Filled(m, mem, r, i, p, p, p + 1) && x == Act(r, i, p)
      modifies this`mem, this`x
      ensures Spared(m, old(mem), mem)
      ensures Valid() && Filled(m, mem, r, i + 1, p, p, p + 1) && x == Act(r, i + 1, p)
    {
      var h := m.layers[i].pre(x);
      var after := Step(m, mem, i, pos, h);
      StepFills(m, mem, r, i, p, p, p + 1, pos, h, after);
      FilledNext(m, after, r, i, p, p + 1);
      StepEmits(m, mem, r, i, p, p, p + 1, pos, x, h, after);
      StepSpares(m, mem, i, pos, h);
      mem := after;
      x := m.layers[i].post(x, Emitted(m, mem, i, pos, h));
    }

    /** Layer-major: a tile of tokens, each layer over the whole tile. */
    method ForwardTile(tile: seq<Vec>, pos: nat, ghost r: Run<LayerState, Vec>, ghost from: nat)
      requires Valid() && ModelOk(m) && RunFits(m, r) && 0 < |tile| && from + |tile| <= |r.xs| && pos == r.base + from
      requires Acts(r, 0, from, tile) && Synced(m, mem, r, from)
      modifies this`mem, this`x
      ensures Spared(m, old(mem), mem)
      ensures Valid() && Synced(m, mem, r, from + |tile|) && x == Act(r, |m.layers|, from + |tile| - 1)
    {
      var current := AllLayers(tile, pos, r, from);
      LastAct(r, |m.layers|, from, current, from + |tile| - 1);
      x := current[|current| - 1];
    }

    method AllLayers(tile: seq<Vec>, pos: nat, ghost r: Run<LayerState, Vec>, ghost from: nat) returns (current: seq<Vec>)
      requires Valid() && ModelOk(m) && RunFits(m, r) && from + |tile| <= |r.xs| && pos == r.base + from
      requires Acts(r, 0, from, tile) && Synced(m, mem, r, from)
      modifies this`mem
      ensures Spared(m, old(mem), mem)
      ensures Valid() && Synced(m, mem, r, from + |tile|)
      ensures |current| == |tile| && Acts(r, |m.layers|, from, current)
    {
      current := tile;
      ghost var to := from + |tile|;
      SyncedFilled(m, mem, r, from, to);
      for i := 0 to |m.layers|
        invariant Spared(m, old(mem), mem)
        invariant Valid() && Filled(m, mem, r, i, from, from, to)
        invariant |current| == |tile| && Acts(r, i, from, current)
      {
        ghost var before := mem;
        current := LayerTile(i, current, pos, r, from);
        SparedChain(m, old(mem), before, mem);
      }
      SyncedFilled(m, mem, r, from, to);
    }

    /** One layer over the tile: all rows, then row by row in token order, then all rows. */
    method LayerTile(i: nat, current: seq<Vec>, pos: nat, ghost r: Run<LayerState, Vec>, ghost from: nat) returns (next: seq<Vec>)
      requires Valid() && ModelOk(m) && RunFits(m, r) && i < |m.layers| && from + |current| <= |r.xs| && pos == r.base + from
      requires Filled(m, mem, r, i, from, from, from + |current|)
      requires Acts(r, i, from, current)
      modifies this`mem
      ensures Spared(m, old(mem), mem)
      ensures Valid() && Filled(m, mem, r, i + 1, from, from, from + |current|)
      ensures |next| == |current| && Acts(r, i + 1, from, next)
    {
      ghost var to := from + |current|;
      var prepared := PrepareRows(m.layers[i], current);
      var mixed := MixRows(i, current, prepared, pos, r, from, to);
      FilledNext(m, mem, r, i, from, to);
      next := FinishRows(m.layers[i], current, mixed);
      MixedActs(m.layers[i], r, i, from, current, mixed, next);
    }

    method MixRows(i: nat, current: seq<Vec>, prepared: seq<Vec>, pos: nat, ghost r: Run<LayerState, Vec>, ghost from: nat, ghost to: nat)
      returns (mixed: seq<Vec>)
      requires Valid() && ModelOk(m) && RunFits(m, r) && i < |m.layers| && to == from + |current| <= |r.xs| && pos == r.base + from
      requires Filled(m, mem, r, i, from, from, to) && Acts(r, i, from, current) && Prepared(m.layers[i], current, prepared)
      modifies this`mem
      ensures Spared(m, old(mem), mem) && Valid() && Filled(m, mem, r, i, from, to, to)
      ensures |mixed| == |current| && MixedTo(m.layers[i], r, i, from, current, mixed)
    {
      mixed := [];
      ghost var l, was, at := m.layers[i], mem, from;
      for row := 0 to |current|
        invariant |mixed| == row && at == from + row
        invariant Spared(m, was, mem) && Valid() && Filled(m, mem, r, i, from, at, to) && MixedTo(l, r, i, from, current, mixed)
      {
        ghost var before := mem;
        var out := RowStep(i, current[row], prepared[row], pos + row, r, from, at, to);
        SparedChain(m, was, before, mem);
        MixedNext(l, r, i, from, current, mixed, out, at);
        mixed, at := mixed + [out], at + 1;
      }
    }

    method RowStep(i: nat, cur: Vec, h: Vec, pos: nat, ghost r: Run<LayerState, Vec>, ghost from: nat, ghost at: nat, ghost to: nat)
      returns (out: Vec)
      requires Valid() && ModelOk(m) && RunFits(m, r) && i < |m.layers| && at < |r.xs| && pos == r.base + at
      requires Filled(m, mem, r, i, from, at, to) && cur == Act(r, i, at) && h == m.layers[i].pre(cur)
      modifies this`mem
      ensures Spared(m, old(mem), mem)
      ensures Valid() && Filled(m, mem, r, i, from, at + 1, to)
      ensures m.layers[i].post(cur, out) == Act(r, i + 1, at)
    {
      var after := Step(m, mem, i, pos, h);
      StepFills(m, mem, r, i, from, at, to, pos, h, after);
      StepEmits(m, mem, r, i, from, at, to, pos, cur, h, after);
      StepSpares(m, mem, i, pos, h);
      mem := after;
      out := Emitted(m, mem, i, pos, h);
    }
  }
}
