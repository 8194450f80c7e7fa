/** What the memory and the prefix cache hold when everything has been computed from the start of the prompt. */
module ColdRun {
  import opened Common
  import opened Layout
  import opened KvCache
  import opened ChunkHash
  import opened PrefixCache
  import opened PrefixInvariant
  import opened PrefixLookup
  import opened Grid
  import opened Layers
  import opened HybridMemory
  import opened Forward

  /** A model, its token embedding, the prefix cache's chunk size, the number of hidden recurrent cells, and the token that begins
      every prompt, if the model asks for one. */
  datatype Setup = Setup(m: Model, embed: Token -> Vec, size: nat, hidden: nat, bos: Option<Token>)

  predicate HasLayer(m: Model, slot: nat)
    requires SlotsOk(m)
  {
    exists i :: 0 <= i < |m.layers| && m.layers[i].Attention? && m.slots[i] == slot
  }

  /** Every allocated KV layer belongs to an attention layer, and the buffers can be addressed. */
  ghost predicate SetupOk(s: Setup) {
    && ModelOk(s.m) && s.size > 0 && (forall slot :: 0 <= slot < s.m.g.layers ==> HasLayer(s.m, slot))
    && s.m.g.maxSeq <= MAX_USIZE && Span(s.m.g.layers, s.m.g.maxSeq) <= MAX_USIZE
    && Span(Span(s.m.g.layers, s.m.g.maxSeq), s.m.g.floats) <= MAX_USIZE
  }

  function Zeros(n: nat): (z: seq<int>)
    ensures |z| == n
  {
    seq(n, _ => 0)
  }

  function Embedded(s: Setup, tokens: seq<Token>): (xs: seq<Vec>)
    ensures |xs| == |tokens|
  {
    seq(|tokens|, i requires 0 <= i < |tokens| => s.embed(tokens[i]))
  }

  function FreshStates(m: Model): (init: seq<LayerState>)
    ensures |init| == |m.layers|
  {
    seq(|m.layers|, i requires 0 <= i < |m.layers| => if m.layers[i].Attention? then Kv([]) else Conv(Zeros(m.cells)))
  }

  /** The run over the whole token sequence from reset state. */
  function Cold(s: Setup, tokens: seq<Token>): Run<LayerState, Vec> {
    RunOf(s.m.layers, FreshStates(s.m), 0, Embedded(s, tokens))
  }

  lemma ColdFits(s: Setup, tokens: seq<Token>)
    requires |tokens| <= s.m.g.maxSeq
    ensures RunFits(s.m, Cold(s, tokens))
  {
  }

  /** A cold run, spelled out: the first activation is the token's embedding; an attention layer attends to the rows of all tokens
      up to its own, each made at its own position; a recurrent layer emits from its cells after the token, which start at zero. */
  lemma ColdLayer(s: Setup, tokens: seq<Token>, i: nat, p: nat)
    requires i < |s.m.layers| && p < |tokens|
    ensures var r, l := Cold(s, tokens), s.m.layers[i];
      var x := Act(r, i, p);
      && Act(r, 0, p) == s.embed(tokens[p])
      && (l.Attention? ==> Act(r, i + 1, p) == l.post(x, l.attend(l.query(l.pre(x), p), RowsMade(l, r, i, p + 1))))
      && (l.Recurrent? ==> Act(r, i + 1, p) == l.post(x, l.emit(CellsMade(l, r, i, p + 1, Zeros(s.m.cells)), l.pre(x))))
  {
    var r := Cold(s, tokens);
    if s.m.layers[i].Attention? {
      AttentionOutput(s.m.layers, r, i, p);
      assert [] + RowsMade(s.m.layers[i], r, i, p + 1) == RowsMade(s.m.layers[i], r, i, p + 1);
    } else {
      RecurrentOutput(s.m.layers, r, i, p);
    }
  }

  /** Recurrent cells that no layer uses keep their reset value. */
  predicate UnusedZero(s: Setup, mem: Memory)
    requires MemoryOk(s.m, mem)
  {
    && mem.hidden == Zeros(s.hidden)
    && forall i :: 0 <= i < |s.m.layers| && s.m.layers[i].Attention? ==> CellsOf(s.m, mem, i) == Zeros(s.m.cells)
  }

  /** The memory holds exactly what the first n tokens leave. */
  ghost predicate Retains(s: Setup, mem: Memory, tokens: seq<Token>, n: nat) {
    && SetupOk(s) && MemoryOk(s.m, mem) && n <= |tokens| <= s.m.g.maxSeq
    && RunFits(s.m, Cold(s, tokens)) && Synced(s.m, mem, Cold(s, tokens), n) && UnusedZero(s, mem)
  }

  /** The context stands at the end of the run r: every layer has seen all its tokens. */
  ghost predicate Stands(s: Setup, mem: Memory, r: Run<LayerState, Vec>) {
    SetupOk(s) && MemoryOk(s.m, mem) && RunFits(s.m, r) && Synced(s.m, mem, r, |r.xs|) && UnusedZero(s, mem)
  }

  /** r with more tokens after its last. */
  function On(r: Run<LayerState, Vec>, xs: seq<Vec>): Run<LayerState, Vec> {
    r.(xs := r.xs + xs)
  }

  /** The position after r's last token. */
  function End(r: Run<LayerState, Vec>): nat {
    r.base + |r.xs|
  }

  /** The states the memory holds, as far as positions below pos go: what any tokens fed at pos will build on. */
  function StatesIn(s: Setup, mem: Memory, pos: nat): (init: seq<LayerState>)
    requires SlotsOk(s.m) && MemoryOk(s.m, mem) && pos <= s.m.g.maxSeq
    ensures |init| == |s.m.layers|
  {
    seq(|s.m.layers|, i requires 0 <= i < |s.m.layers| => View(s.m, mem, i, pos))
  }

  /** The empty run from those states. */
  function Here(s: Setup, mem: Memory, pos: nat): Run<LayerState, Vec>
    requires SlotsOk(s.m) && MemoryOk(s.m, mem) && pos <= s.m.g.maxSeq
  {
    RunOf(s.m.layers, StatesIn(s, mem, pos), pos, [])
  }

  /** Wherever the context stands, it stands at the end of that one too. */
  lemma StandsHere(s: Setup, mem: Memory, pos: nat)
    requires SetupOk(s) && MemoryOk(s.m, mem) && UnusedZero(s, mem) && pos <= s.m.g.maxSeq
    ensures Stands(s, mem, Here(s, mem, pos))
  {
    var r := Here(s, mem, pos);
    forall j | 0 <= j < |s.m.layers| ensures Full(s.m, mem, r, j, 0) {
      assert StateAt(r, j, 0) == View(s.m, mem, j, pos);
    }
  }

  /** Standing at the end of r is standing in the middle of any longer run. */
  lemma StandsOn(s: Setup, mem: Memory, r: Run<LayerState, Vec>, xs: seq<Vec>)
    requires Stands(s, mem, r) && End(r) + |xs| <= s.m.g.maxSeq
    ensures RunFits(s.m, On(r, xs)) && Synced(s.m, mem, On(r, xs), |r.xs|)
  {
    var q, n := On(r, xs), |r.xs|;
    assert Shares(r, q, n) by { assert q.xs[..n] == r.xs[..n]; }
    forall j | 0 <= j < |s.m.layers| ensures Full(s.m, mem, q, j, n) {
      assert Full(s.m, mem, r, j, n);
      SharedState(r, q, n, j, n);
    }
  }

  /** After the rest of the longer run the context stands at its end. */
  lemma StandsAfter(s: Setup, before: Memory, after: Memory, r: Run<LayerState, Vec>, q: Run<LayerState, Vec>)
    requires Stands(s, before, r) && MemoryOk(s.m, after) && RunFits(s.m, q)
    requires Synced(s.m, after, q, |q.xs|) && Spared(s.m, before, after)
    ensures Stands(s, after, q)
  {
    forall i | 0 <= i < |s.m.layers| && s.m.layers[i].Attention? ensures CellsOf(s.m, after, i) == Zeros(s.m.cells) {
      assert CellsOf(s.m, before, i) == Zeros(s.m.cells);
    }
  }

  lemma StandsCold(s: Setup, mem: Memory, text: seq<Token>)
    ensures Retains(s, mem, text, |text|) <==> Stands(s, mem, Cold(s, text))
  {
  }

  lemma OnCold(s: Setup, text: seq<Token>, more: seq<Token>)
    ensures On(Cold(s, text), Embedded(s, more)) == Cold(s, text + more)
  {
    assert Embedded(s, text) + Embedded(s, more) == Embedded(s, text + more);
  }

  lemma OnNext(s: Setup, r: Run<LayerState, Vec>, tokens: seq<Token>, from: nat, to: nat)
    requires from <= to <= |tokens|
    ensures On(On(r, Embedded(s, tokens[..from])), Embedded(s, tokens[from..to])) == On(r, Embedded(s, tokens[..to]))
  {
    assert r.xs + Embedded(s, tokens[..from]) + Embedded(s, tokens[from..to]) == r.xs + Embedded(s, tokens[..to]);
  }

  /** Its KV rows do, whatever the recurrent cells are. */
  ghost predicate KvRetains(s: Setup, mem: Memory, tokens: seq<Token>, n: nat) {
    && SetupOk(s) && MemoryOk(s.m, mem) && n <= |tokens| <= s.m.g.maxSeq && RunFits(s.m, Cold(s, tokens))
    && forall i :: 0 <= i < |s.m.layers| && s.m.layers[i].Attention? ==> Full(s.m, mem, Cold(s, tokens), i, n)
  }

  // ---------- where the memory keeps it ----------

  /** Of an attention layer the memory keeps the row of each token, made from the layer's prepared input at the token's position. */
  lemma RetainedRow(s: Setup, mem: Memory, tokens: seq<Token>, n: nat, i: nat, p: nat)
    requires Retains(s, mem, tokens, n) && i < |s.m.layers| && s.m.layers[i].Attention? && p < n
    ensures RowOf(s.m, mem, s.m.slots[i], p) == s.m.layers[i].row(s.m.layers[i].pre(Act(Cold(s, tokens), i, p)), p)
  {
    var r := Cold(s, tokens);
    assert Full(s.m, mem, r, i, n);
    AttentionState(s.m.layers, r, i, n);
    assert RowsOf(s.m, mem, s.m.slots[i], n)[p] == RowsMade(s.m.layers[i], r, i, n)[p];
  }

  /** Of a recurrent layer it keeps the cells advanced by every token in turn. */
  lemma RetainedCells(s: Setup, mem: Memory, tokens: seq<Token>, n: nat, i: nat)
    requires Retains(s, mem, tokens, n) && i < |s.m.layers| && s.m.layers[i].Recurrent?
    ensures CellsOf(s.m, mem, i) == CellsMade(s.m.layers[i], Cold(s, tokens), i, n, Zeros(s.m.cells))
  {
    var r := Cold(s, tokens);
    assert Full(s.m, mem, r, i, n);
    RecurrentState(s.m.layers, r, i, n);
  }

  // ---------- only the tokens so far matter ----------

  lemma ColdShares(s: Setup, a: seq<Token>, b: seq<Token>, n: nat)
    requires n <= |a| && n <= |b| && a[..n] == b[..n]
    ensures Shares(Cold(s, a), Cold(s, b), n)
  {
    var xs, ys := Embedded(s, a), Embedded(s, b);
    forall i | 0 <= i < n ensures xs[..n][i] == ys[..n][i] {
      assert a[i] == a[..n][i] == b[..n][i] == b[i];
    }
    assert xs[..n] == ys[..n];
  }

  lemma RetainsPrefix(s: Setup, mem: Memory, a: seq<Token>, b: seq<Token>, n: nat)
    requires Retains(s, mem, a, n) && n <= |b| <= s.m.g.maxSeq && a[..n] == b[..n]
    ensures Retains(s, mem, b, n)
  {
    ColdFits(s, b);
    ColdShares(s, a, b, n);
    forall j | 0 <= j < |s.m.layers| ensures Full(s.m, mem, Cold(s, b), j, n) {
      assert Full(s.m, mem, Cold(s, a), j, n);
      SharedState(Cold(s, a), Cold(s, b), n, j, n);
    }
  }

  // ---------- what is retained is determined by the tokens ----------

  lemma SameRowOf(s: Setup, a: Memory, b: Memory, tokens: seq<Token>, n: nat, slot: nat, p: nat)
    requires KvRetains(s, a, tokens, n) && KvRetains(s, b, tokens, n) && slot < s.m.g.layers && p < n
    ensures RowOf(s.m, a, slot, p) == RowOf(s.m, b, slot, p)
  {
    assert HasLayer(s.m, slot);
    var i :| 0 <= i < |s.m.layers| && s.m.layers[i].Attention? && s.m.slots[i] == slot;
    assert Full(s.m, a, Cold(s, tokens), i, n) && Full(s.m, b, Cold(s, tokens), i, n);
    assert RowsOf(s.m, a, slot, n)[p] == RowsOf(s.m, b, slot, n)[p];
  }

  lemma SameSlots(s: Setup, a: Memory, b: Memory, tokens: seq<Token>, n: nat, slot: nat, p: nat)
    requires KvRetains(s, a, tokens, n) && KvRetains(s, b, tokens, n) && slot < s.m.g.layers && p < n
    ensures SameSlot(a.k, b.k, s.m.g, slot, p) && SameSlot(a.v, b.v, s.m.g, slot, p)
  {
    SameRowOf(s, a, b, tokens, n, slot, p);
    RowInside(a.k, s.m.g, slot, p, 1);
    RowInside(a.v, s.m.g, slot, p, 1);
    RowInside(b.k, s.m.g, slot, p, 1);
    RowInside(b.v, s.m.g, slot, p, 1);
  }

  lemma SameExports(s: Setup, a: Memory, b: Memory, tokens: seq<Token>, n: nat, start: nat, len: nat)
    requires KvRetains(s, a, tokens, n) && KvRetains(s, b, tokens, n) && start + len <= n
    ensures Export(a.k, s.m.g, start, len) == Export(b.k, s.m.g, start, len)
    ensures Export(a.v, s.m.g, start, len) == Export(b.v, s.m.g, start, len)
  {
    forall slot, p | 0 <= slot < s.m.g.layers && start <= p < start + len
      ensures SameSlot(a.k, b.k, s.m.g, slot, p) && SameSlot(a.v, b.v, s.m.g, slot, p)
    {
      SameSlots(s, a, b, tokens, n, slot, p);
    }
    ExportAgrees(a.k, b.k, s.m.g, start, len);
    ExportAgrees(a.v, b.v, s.m.g, start, len);
  }

  lemma SameCells(s: Setup, a: Memory, b: Memory, tokens: seq<Token>, n: nat, i: nat)
    requires Retains(s, a, tokens, n) && Retains(s, b, tokens, n) && i < |s.m.layers|
    ensures CellsOf(s.m, a, i) == CellsOf(s.m, b, i)
  {
    assert Full(s.m, a, Cold(s, tokens), i, n) && Full(s.m, b, Cold(s, tokens), i, n);
  }

  lemma SameConv(s: Setup, a: Memory, b: Memory, tokens: seq<Token>, n: nat)
    requires Retains(s, a, tokens, n) && Retains(s, b, tokens, n)
    ensures a.conv == b.conv && a.hidden == b.hidden
  {
    var h, layers := s.m.cells, |s.m.layers|;
    forall i | 0 <= i < layers ensures SameRow(a.conv, b.conv, h, i) {
      SpanMono(i + 1, layers, h);
      SameCells(s, a, b, tokens, n, i);
    }
    RowsDetermine(a.conv, b.conv, h, layers);
    assert a.conv == a.conv[..Span(layers, h)] && b.conv == b.conv[..Span(layers, h)];
  }

  /** Two memories that retain the same tokens export the same state: k, v, recurrent cells. */
  function SnapshotOf(s: Setup, mem: Memory, t: seq<Token>): Snapshot<int>
    requires ShapeOk(s.m.g) && MemoryOk(s.m, mem) && s.size <= |t| <= s.m.g.maxSeq
  {
    Snapshot(|t|, ChunkKey(NO_HASH, t[|t| - s.size..]),
             Export(mem.k, s.m.g, |t| - s.size, s.size), Export(mem.v, s.m.g, |t| - s.size, s.size), mem.conv, mem.hidden)
  }

  ghost predicate Known(s: Setup, t: seq<Token>) {
    s.size <= |t| && exists mem :: Retains(s, mem, t, |t|)
  }

  /** The snapshot a cold run leaves at the end of t. */
  ghost function Snap(s: Setup, t: seq<Token>): Snapshot<int>
    requires Known(s, t)
  {
    var mem :| Retains(s, mem, t, |t|);
    SnapshotOf(s, mem, t)
  }

  lemma SameSnapshots(s: Setup, a: Memory, b: Memory, t: seq<Token>)
    requires Retains(s, a, t, |t|) && Retains(s, b, t, |t|) && s.size <= |t|
    ensures SnapshotOf(s, a, t) == SnapshotOf(s, b, t)
  {
    SameExports(s, a, b, t, |t|, |t| - s.size, s.size);
    SameConv(s, a, b, t, |t|);
  }

  lemma SnapshotIsSnap(s: Setup, mem: Memory, t: seq<Token>)
    requires Retains(s, mem, t, |t|) && s.size <= |t|
    ensures Known(s, t) && Snap(s, t) == SnapshotOf(s, mem, t)
  {
    assert Known(s, t);
    var snap := Snap(s, t);
    var other :| Retains(s, other, t, |t|) && snap == SnapshotOf(s, other, t);
    SameSnapshots(s, mem, other, t);
  }

  // ---------- attention only appends ----------

  lemma {:induction false} RowsGrow(s: Setup, tokens: seq<Token>, i: nat, p: nat, n: nat)
    requires i < |s.m.layers| && s.m.layers[i].Attention? && p <= n <= |tokens|
    ensures StateAt(Cold(s, tokens), i, p).Kv? && StateAt(Cold(s, tokens), i, n).Kv?
    ensures |StateAt(Cold(s, tokens), i, n).rows| == n
    ensures StateAt(Cold(s, tokens), i, n).rows[..p] == StateAt(Cold(s, tokens), i, p).rows
  {
    if n > 0 {
      var last := n - 1;
      RowsGrow(s, tokens, i, if p < n then p else last, last);
      RunNext(s.m.layers, FreshStates(s.m), 0, Embedded(s, tokens), i, last, last);
    }
  }

  /** Rows that hold a run up to n hold it up to any earlier token. */
  lemma KvRetainsEarlier(s: Setup, mem: Memory, tokens: seq<Token>, n: nat, p: nat)
    requires KvRetains(s, mem, tokens, n) && p <= n
    ensures KvRetains(s, mem, tokens, p)
  {
    forall i | 0 <= i < |s.m.layers| && s.m.layers[i].Attention? ensures Full(s.m, mem, Cold(s, tokens), i, p) {
      assert Full(s.m, mem, Cold(s, tokens), i, n);
      RowsGrow(s, tokens, i, p, n);
      assert RowsOf(s.m, mem, s.m.slots[i], p) == RowsOf(s.m, mem, s.m.slots[i], n)[..p];
    }
  }

  lemma KvRetainsPrefix(s: Setup, mem: Memory, a: seq<Token>, b: seq<Token>, n: nat)
    requires KvRetains(s, mem, a, n) && n <= |b| <= s.m.g.maxSeq && a[..n] == b[..n]
    ensures KvRetains(s, mem, b, n)
  {
    ColdFits(s, b);
    ColdShares(s, a, b, n);
    forall i | 0 <= i < |s.m.layers| && s.m.layers[i].Attention? ensures Full(s.m, mem, Cold(s, b), i, n) {
      assert Full(s.m, mem, Cold(s, a), i, n);
      SharedState(Cold(s, a), Cold(s, b), n, i, n);
    }
  }

  lemma RetainsKv(s: Setup, mem: Memory, tokens: seq<Token>, n: nat)
    requires Retains(s, mem, tokens, n)
    ensures KvRetains(s, mem, tokens, n)
  {
    forall i | 0 <= i < |s.m.layers| && s.m.layers[i].Attention? ensures Full(s.m, mem, Cold(s, tokens), i, n) {
      assert Full(s.m, mem, Cold(s, tokens), i, n);
    }
  }

  // ---------- restoring one chunk ----------

  function WithKv(mem: Memory, g: Shape, start: nat, len: nat, k: seq<int>, v: seq<int>): Memory
    requires Holds(mem.k, g) && Holds(mem.v, g) && start + len <= g.maxSeq
    requires Span(Span(g.layers, len), g.rowCells) <= |k| && Span(Span(g.layers, len), g.rowCells) <= |v|
  {
    mem.(k := Import(mem.k, g, start, len, k), v := Import(mem.v, g, start, len, v))
  }

  lemma MovedRow(s: Setup, mem: Memory, src: Memory, start: nat, len: nat, slot: nat, p: nat)
    requires ShapeOk(s.m.g) && MemoryOk(s.m, mem) && MemoryOk(s.m, src) && start + len <= s.m.g.maxSeq
    requires slot < s.m.g.layers && p < s.m.g.maxSeq
    ensures var after := WithKv(mem, s.m.g, start, len, Export(src.k, s.m.g, start, len), Export(src.v, s.m.g, start, len));
      MemoryOk(s.m, after) && RowOf(s.m, after, slot, p) == RowOf(s.m, if start <= p < start + len then src else mem, slot, p)
  {
    MovedSlot(mem.k, src.k, s.m.g, start, len, slot, p);
    MovedSlot(mem.v, src.v, s.m.g, start, len, slot, p);
  }

  /** Importing the chunk [n, n + len) of a memory that retains the tokens extends the restored rows. */
  lemma RestoreChunk(s: Setup, mem: Memory, src: Memory, tokens: seq<Token>, n: nat, len: nat)
    requires KvRetains(s, mem, tokens, n) && KvRetains(s, src, tokens, n + len)
    ensures KvRetains(s, WithKv(mem, s.m.g, n, len, Export(src.k, s.m.g, n, len), Export(src.v, s.m.g, n, len)), tokens, n + len)
  {
    var after, to := WithKv(mem, s.m.g, n, len, Export(src.k, s.m.g, n, len), Export(src.v, s.m.g, n, len)), n + len;
    KvRetainsEarlier(s, src, tokens, to, n);
    forall i | 0 <= i < |s.m.layers| && s.m.layers[i].Attention? ensures Full(s.m, after, Cold(s, tokens), i, to) {
      RestoredLayer(s, mem, src, after, tokens, n, len, to, i);
    }
  }

  lemma RestoredLayer(s: Setup, mem: Memory, src: Memory, after: Memory, tokens: seq<Token>, n: nat, len: nat, to: nat, i: nat)
    requires KvRetains(s, mem, tokens, n) && KvRetains(s, src, tokens, n) && KvRetains(s, src, tokens, to) && to == n + len
    requires i < |s.m.layers| && s.m.layers[i].Attention? && MemoryOk(s.m, after)
    requires after == WithKv(mem, s.m.g, n, len, Export(src.k, s.m.g, n, len), Export(src.v, s.m.g, n, len))
    ensures Full(s.m, after, Cold(s, tokens), i, to)
  {
    assert Full(s.m, src, Cold(s, tokens), i, to);
    RestoredRows(s, mem, src, after, tokens, n, len, to, s.m.slots[i]);
  }

  lemma RestoredRows(s: Setup, mem: Memory, src: Memory, after: Memory, tokens: seq<Token>, n: nat, len: nat, to: nat, slot: nat)
    requires KvRetains(s, mem, tokens, n) && KvRetains(s, src, tokens, n) && to == n + len <= s.m.g.maxSeq && slot < s.m.g.layers
    requires after == WithKv(mem, s.m.g, n, len, Export(src.k, s.m.g, n, len), Export(src.v, s.m.g, n, len)) && MemoryOk(s.m, after)
    ensures RowsOf(s.m, after, slot, to) == RowsOf(s.m, src, slot, to)
  {
    var now, from := RowsOf(s.m, after, slot, to), RowsOf(s.m, src, slot, to);
    forall p | 0 <= p < to ensures now[p] == from[p] {
      MovedRow(s, mem, src, n, len, slot, p);
      if p < n { SameRowOf(s, mem, src, tokens, n, slot, p); }
    }
  }

  /** With the recurrent cells of a memory that retains the tokens, restored rows make a restored memory. */
  lemma RestoreCells(s: Setup, mem: Memory, src: Memory, tokens: seq<Token>, n: nat)
    requires KvRetains(s, mem, tokens, n) && Retains(s, src, tokens, n)
    ensures Retains(s, mem.(conv := src.conv, hidden := src.hidden), tokens, n)
  {
    var after := mem.(conv := src.conv, hidden := src.hidden);
    forall j | 0 <= j < |s.m.layers| ensures Full(s.m, after, Cold(s, tokens), j, n) {
      assert Full(s.m, src, Cold(s, tokens), j, n);
      if s.m.layers[j].Attention? {
        assert Full(s.m, mem, Cold(s, tokens), j, n);
        assert RowsOf(s.m, after, s.m.slots[j], n) == RowsOf(s.m, mem, s.m.slots[j], n);
      }
    }
  }
}
