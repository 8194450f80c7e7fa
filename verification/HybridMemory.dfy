/** The model's working memory - flat KV buffers and flat recurrent cells - and what its layers make of it. */
module HybridMemory {
  import opened Common
  import opened Layout
  import opened KvCache
  import opened Grid
  import opened Layers

  /** slots[i] is attention layer i's allocated KV layer; `cells` counts one layer's recurrent cells. */
  datatype Model = Model(layers: seq<Layer>, slots: seq<nat>, g: Shape, cells: nat)

  datatype Memory = Memory(k: seq<int>, v: seq<int>, conv: seq<int>, hidden: seq<int>)

  predicate SlotsOk(m: Model) {
    && |m.slots| == |m.layers|
    && (forall i :: 0 <= i < |m.layers| && m.layers[i].Attention? ==> m.slots[i] < m.g.layers)
    && (forall i, j :: 0 <= i < j < |m.layers| && m.layers[i].Attention? && m.layers[j].Attention? ==> m.slots[i] != m.slots[j])
  }

  /** The layer writes rows and cells of the sizes it was given. */
  ghost predicate Fits(l: Layer, g: Shape, cells: nat) {
    match l
    case Attention(_, _, row, _, _) => forall h, pos :: |row(h, pos).k| == g.rowCells && |row(h, pos).v| == g.rowCells
    case Recurrent(_, advance, _, _) => forall c, h :: |advance(c, h)| == cells
  }

  ghost predicate ModelOk(m: Model) {
    SlotsOk(m) && ShapeOk(m.g) && forall i :: 0 <= i < |m.layers| ==> Fits(m.layers[i], m.g, m.cells)
  }

  predicate MemoryOk(m: Model, mem: Memory) {
    Holds(mem.k, m.g) && Holds(mem.v, m.g) && |mem.conv| == Span(|m.layers|, m.cells)
  }

  // ---------- views ----------

  function RowOf(m: Model, mem: Memory, slot: nat, p: nat): KvRow
    requires MemoryOk(m, mem) && slot < m.g.layers && p < m.g.maxSeq
  {
    RowInside(mem.k, m.g, slot, p, 1);
    RowInside(mem.v, m.g, slot, p, 1);
    KvRow(Row(mem.k, RowNo(m.g, slot, p), m.g.rowCells), Row(mem.v, RowNo(m.g, slot, p), m.g.rowCells))
  }

  function RowsOf(m: Model, mem: Memory, slot: nat, n: nat): (rows: seq<KvRow>)
    requires MemoryOk(m, mem) && slot < m.g.layers && n <= m.g.maxSeq
    ensures |rows| == n
  {
    seq(n, p requires 0 <= p < n => RowOf(m, mem, slot, p))
  }

  function CellsOf(m: Model, mem: Memory, i: nat): seq<int>
    requires MemoryOk(m, mem) && i < |m.layers|
  {
    SpanMono(i + 1, |m.layers|, m.cells);
    Row(mem.conv, i, m.cells)
  }

  /** Layer i's state, as far as its first n tokens go. */
  function View(m: Model, mem: Memory, i: nat, n: nat): LayerState
    requires SlotsOk(m) && MemoryOk(m, mem) && i < |m.layers| && n <= m.g.maxSeq
  {
    if m.layers[i].Attention? then Kv(RowsOf(m, mem, m.slots[i], n)) else Conv(CellsOf(m, mem, i))
  }

  lemma CellAt(b: seq<int>, r: nat, h: nat, c: nat)
    requires Span(r + 1, h) <= |b| && c < h
    ensures r * h + c < |b| && Row(b, r, h)[c] == b[r * h + c]
  {
    SpanIs(r, h);
  }

  function CellNo(g: Shape, slot: nat, p: nat, c: nat): nat {
    (slot * g.maxSeq + p) * g.rowCells + c
  }

  lemma RowCell(b: seq<int>, g: Shape, slot: nat, p: nat, c: nat)
    requires Holds(b, g) && slot < g.layers && p < g.maxSeq && c < g.rowCells
    ensures Span(RowNo(g, slot, p) + 1, g.rowCells) <= |b| && CellNo(g, slot, p, c) < |b|
    ensures Row(b, RowNo(g, slot, p), g.rowCells)[c] == b[CellNo(g, slot, p, c)]
  {
    RowInside(b, g, slot, p, 1);
    SpanIs(slot, g.maxSeq);
    CellAt(b, RowNo(g, slot, p), g.rowCells, c);
  }

  /** Row p of slot `slot` stands in the flat buffers from cell (slot * maxSeq + p) * rowCells on. */
  lemma RowStands(m: Model, mem: Memory, slot: nat, p: nat, c: nat)
    requires MemoryOk(m, mem) && slot < m.g.layers && p < m.g.maxSeq && c < m.g.rowCells
    ensures CellNo(m.g, slot, p, c) < |mem.k| && RowOf(m, mem, slot, p).k[c] == mem.k[CellNo(m.g, slot, p, c)]
    ensures CellNo(m.g, slot, p, c) < |mem.v| && RowOf(m, mem, slot, p).v[c] == mem.v[CellNo(m.g, slot, p, c)]
  {
    RowCell(mem.k, m.g, slot, p, c);
    RowCell(mem.v, m.g, slot, p, c);
  }

  /** Layer i's cells stand in the recurrent buffer from cell i * cells on. */
  lemma CellsStand(m: Model, mem: Memory, i: nat, c: nat)
    requires MemoryOk(m, mem) && i < |m.layers| && c < m.cells
    ensures i * m.cells + c < |mem.conv| && CellsOf(m, mem, i)[c] == mem.conv[i * m.cells + c]
  {
    SpanMono(i + 1, |m.layers|, m.cells);
    CellAt(mem.conv, i, m.cells, c);
  }

  // ---------- one causal step ----------

  function WithRow(m: Model, mem: Memory, slot: nat, pos: nat, row: KvRow): (r: Memory)
    requires MemoryOk(m, mem) && slot < m.g.layers && pos < m.g.maxSeq && |row.k| == |row.v| == m.g.rowCells
    ensures MemoryOk(m, r)
  {
    RowInside(mem.k, m.g, slot, pos, 1);
    RowInside(mem.v, m.g, slot, pos, 1);
    assert Span(1, m.g.rowCells) == m.g.rowCells by { assert Span(0, m.g.rowCells) == 0; }
    mem.(k := SpliceRows(mem.k, RowNo(m.g, slot, pos), 1, m.g.rowCells, row.k),
         v := SpliceRows(mem.v, RowNo(m.g, slot, pos), 1, m.g.rowCells, row.v))
  }

  function Advanced(m: Model, mem: Memory, i: nat, cells: seq<int>): (r: Memory)
    requires MemoryOk(m, mem) && i < |m.layers| && |cells| == m.cells
    ensures MemoryOk(m, r)
  {
    SpanMono(i + 1, |m.layers|, m.cells);
    assert Span(1, m.cells) == m.cells by { assert Span(0, m.cells) == 0; }
    mem.(conv := SpliceRows(mem.conv, i, 1, m.cells, cells))
  }

  /** The memory after layer i's causal step for the token at `pos`, whose prepared input is h. */
  function Step(m: Model, mem: Memory, i: nat, pos: nat, h: Vec): (r: Memory)
    requires ModelOk(m) && MemoryOk(m, mem) && i < |m.layers| && pos < m.g.maxSeq
    ensures MemoryOk(m, r)
  {
    assert Fits(m.layers[i], m.g, m.cells);
    match m.layers[i]
    case Attention(_, _, row, _, _) => WithRow(m, mem, m.slots[i], pos, row(h, pos))
    case Recurrent(_, advance, _, _) => Advanced(m, mem, i, advance(CellsOf(m, mem, i), h))
  }

  lemma SingleRow(d: seq<int>, h: nat)
    requires |d| == h
    ensures Span(1, h) == h && Row(d, 0, h) == d
  {
    assert Span(0, h) == 0;
  }

  lemma StoredRow(m: Model, mem: Memory, slot: nat, pos: nat, row: KvRow)
    requires MemoryOk(m, mem) && slot < m.g.layers && pos < m.g.maxSeq && |row.k| == |row.v| == m.g.rowCells
    ensures RowOf(m, WithRow(m, mem, slot, pos, row), slot, pos) == row
  {
    var r, h := RowNo(m.g, slot, pos), m.g.rowCells;
    RowInside(mem.k, m.g, slot, pos, 1);
    RowInside(mem.v, m.g, slot, pos, 1);
    SingleRow(row.k, h);
    SingleRow(row.v, h);
    SplicedRow(mem.k, r, 1, h, row.k, r);
    SplicedRow(mem.v, r, 1, h, row.v, r);
  }

  lemma OtherRow(m: Model, mem: Memory, slot: nat, pos: nat, row: KvRow, other: nat, p: nat)
    requires MemoryOk(m, mem) && slot < m.g.layers && pos < m.g.maxSeq && |row.k| == |row.v| == m.g.rowCells
    requires other < m.g.layers && p < m.g.maxSeq && (other, p) != (slot, pos)
    ensures RowOf(m, WithRow(m, mem, slot, pos, row), other, p) == RowOf(m, mem, other, p)
  {
    var r, q, h := RowNo(m.g, slot, pos), RowNo(m.g, other, p), m.g.rowCells;
    RowInside(mem.k, m.g, slot, pos, 1);
    RowInside(mem.v, m.g, slot, pos, 1);
    RowInside(mem.k, m.g, other, p, 1);
    RowInside(mem.v, m.g, other, p, 1);
    SingleRow(row.k, h);
    SingleRow(row.v, h);
    RowOrder(m.g, other, p, slot, pos, 1);
    UnsplicedRow(mem.k, r, 1, h, row.k, q);
    UnsplicedRow(mem.v, r, 1, h, row.v, q);
  }

  /** Storing appends one row to its own layer's rows ... */
  lemma StoredRows(m: Model, mem: Memory, slot: nat, pos: nat, row: KvRow)
    requires MemoryOk(m, mem) && slot < m.g.layers && pos < m.g.maxSeq && |row.k| == |row.v| == m.g.rowCells
    ensures RowsOf(m, WithRow(m, mem, slot, pos, row), slot, pos + 1) == RowsOf(m, mem, slot, pos) + [row]
  {
    var after := WithRow(m, mem, slot, pos, row);
    var now, was := RowsOf(m, after, slot, pos + 1), RowsOf(m, mem, slot, pos);
    StoredRow(m, mem, slot, pos, row);
    forall p | 0 <= p < pos ensures now[p] == was[p] {
      OtherRow(m, mem, slot, pos, row, slot, p);
    }
  }

  /** ... and leaves the other layers' alone. */
  lemma OtherRows(m: Model, mem: Memory, slot: nat, pos: nat, row: KvRow, other: nat, n: nat)
    requires MemoryOk(m, mem) && slot < m.g.layers && pos < m.g.maxSeq && |row.k| == |row.v| == m.g.rowCells
    requires other < m.g.layers && n <= m.g.maxSeq && other != slot
    ensures RowsOf(m, WithRow(m, mem, slot, pos, row), other, n) == RowsOf(m, mem, other, n)
  {
    var after := WithRow(m, mem, slot, pos, row);
    forall p | 0 <= p < n ensures RowsOf(m, after, other, n)[p] == RowsOf(m, mem, other, n)[p] {
      OtherRow(m, mem, slot, pos, row, other, p);
    }
  }

  lemma AdvancedCells(m: Model, mem: Memory, i: nat, cells: seq<int>, j: nat)
    requires MemoryOk(m, mem) && i < |m.layers| && |cells| == m.cells && j < |m.layers|
    ensures CellsOf(m, Advanced(m, mem, i, cells), j) == if j == i then cells else CellsOf(m, mem, j)
  {
    SpanMono(i + 1, |m.layers|, m.cells);
    SpanMono(j + 1, |m.layers|, m.cells);
    SingleRow(cells, m.cells);
    if j == i {
      SplicedRow(mem.conv, i, 1, m.cells, cells, i);
    } else {
      UnsplicedRow(mem.conv, i, 1, m.cells, cells, j);
    }
  }

  /** The step is the layer's, seen through its view. */
  lemma StepView(m: Model, mem: Memory, i: nat, pos: nat, h: Vec)
    requires ModelOk(m) && MemoryOk(m, mem) && i < |m.layers| && pos < m.g.maxSeq
    ensures View(m, Step(m, mem, i, pos, h), i, pos + 1) == Next(m.layers[i], View(m, mem, i, pos), pos, h)
  {
    assert Fits(m.layers[i], m.g, m.cells);
    match m.layers[i]
    case Attention(_, _, row, _, _) => StoredRows(m, mem, m.slots[i], pos, row(h, pos));
    case Recurrent(_, advance, _, _) => AdvancedCells(m, mem, i, advance(CellsOf(m, mem, i), h), i);
  }

  /** The other layers do not notice. */
  lemma StepOther(m: Model, mem: Memory, i: nat, pos: nat, h: Vec, j: nat, n: nat)
    requires ModelOk(m) && MemoryOk(m, mem) && i < |m.layers| && pos < m.g.maxSeq
    requires j < |m.layers| && j != i && n <= m.g.maxSeq
    ensures View(m, Step(m, mem, i, pos, h), j, n) == View(m, mem, j, n)
  {
    assert Fits(m.layers[i], m.g, m.cells);
    match m.layers[i]
    case Attention(_, _, row, _, _) =>
      if m.layers[j].Attention? { OtherRows(m, mem, m.slots[i], pos, row(h, pos), m.slots[j], n); }
    case Recurrent(_, advance, _, _) => AdvancedCells(m, mem, i, advance(CellsOf(m, mem, i), h), j);
  }
}
