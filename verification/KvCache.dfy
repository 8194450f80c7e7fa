/** The flat KV cache: rows of one token in one attention layer, exported and imported by token interval. */
module KvCache {
  import opened Common
  import opened Layout

  datatype Precision = F32 | Q8 | TurboQuant4 | TurboQuant2

  datatype KvError =
    | ContextOverflow(pos: nat, max: nat)
    | InvalidLayer(layer: nat, layers: nat)
    | DimMismatch(expected: nat, got: nat)
    | AllocationOverflow(layers: nat, maxSeq: nat, kvDim: nat)

  // ---------- shapes ----------

  /** Cells of one row: 32-bit floats in the F32 cache, bytes in the packed ones. */
  function RowCells(precision: Precision, kvDim: nat): nat {
    match precision
    case F32 => kvDim
    case Q8 => (kvDim + 31) / 32 * 34
    case TurboQuant4 => 4 + (kvDim + 1) / 2
    case TurboQuant2 => 4 + (kvDim + 3) / 4
  }

  /** An exported row's share of the carrier, in the same cells: packed bytes travel in whole 32-bit floats. */
  function CarrierCells(precision: Precision, kvDim: nat): nat {
    CarrierFloats(precision, kvDim) * FloatCells(precision)
  }

  /** The 32-bit floats of that share. */
  function CarrierFloats(precision: Precision, kvDim: nat): nat {
    if precision.F32? then kvDim else (RowCells(precision, kvDim) + 3) / 4
  }

  /** Cells of one 32-bit float. */
  function FloatCells(precision: Precision): nat {
    if precision.F32? then 1 else 4
  }

  /** `layers` counts the allocated attention layers; `floats` are those that carry one exported row. */
  datatype Shape = Shape(layers: nat, maxSeq: nat, rowCells: nat, carrierCells: nat, floats: nat)

  predicate ShapeOk(g: Shape) {
    g.rowCells <= g.carrierCells
  }

  /** The row of one token in one allocated layer. */
  function RowNo(g: Shape, layer: nat, pos: nat): nat {
    Span(layer, g.maxSeq) + pos
  }

  predicate Holds(b: seq<int>, g: Shape) {
    Span(Span(g.layers, g.maxSeq), g.rowCells) <= |b|
  }

  lemma RowInside(b: seq<int>, g: Shape, layer: nat, start: nat, len: nat)
    requires Holds(b, g) && layer < g.layers && start + len <= g.maxSeq
    ensures Span(RowNo(g, layer, start) + len, g.rowCells) <= |b|
  {
    SpanMono(layer + 1, g.layers, g.maxSeq);
    SpanMono(RowNo(g, layer, start) + len, Span(g.layers, g.maxSeq), g.rowCells);
  }

  /** Distinct tokens or layers never share a row. */
  lemma SlotsDisjoint(g: Shape, l: nat, p: nat, m: nat, q: nat)
    requires p < g.maxSeq && q < g.maxSeq && (l, p) != (m, q)
    ensures var a, b := Span(RowNo(g, l, p), g.rowCells), Span(RowNo(g, m, q), g.rowCells);
      a + g.rowCells <= b || b + g.rowCells <= a
  {
    if l < m || (l == m && p < q) {
      if l < m { SpanMono(l + 1, m, g.maxSeq); }
      SpanMono(RowNo(g, l, p) + 1, RowNo(g, m, q), g.rowCells);
    } else {
      if m < l { SpanMono(m + 1, l, g.maxSeq); }
      SpanMono(RowNo(g, m, q) + 1, RowNo(g, l, p), g.rowCells);
    }
  }

  // ---------- export ----------

  /** The rows of the tokens [start, start + len) in the first n allocated layers. */
  function Exported(b: seq<int>, g: Shape, start: nat, len: nat, n: nat): (out: seq<int>)
    requires Holds(b, g) && n <= g.layers && start + len <= g.maxSeq
    ensures |out| == Span(Span(n, len), g.rowCells)
  {
    if n == 0 then []
    else
      RowInside(b, g, n - 1, start, len);
      SpanAdd(Span(n - 1, len), len, g.rowCells);
      Exported(b, g, start, len, n - 1) + Rows(b, RowNo(g, n - 1, start), len, g.rowCells)
  }

  lemma ExportedRowNo(n: nat, len: nat, layer: nat, j: nat)
    requires layer < n && j < len
    ensures Span(layer, len) + j < Span(n, len)
  {
    SpanMono(layer + 1, n, len);
  }

  /** Row i of `out` is row r of b. */
  predicate CopiesRow(out: seq<int>, i: nat, b: seq<int>, r: nat, h: nat) {
    Span(i + 1, h) <= |out| && Span(r + 1, h) <= |b| && Row(out, i, h) == Row(b, r, h)
  }

  lemma CopiesLast(init: seq<int>, k: nat, b: seq<int>, r: nat, len: nat, h: nat, j: nat)
    requires |init| == Span(k, h) && j < len && Span(r + len, h) <= |b|
    ensures CopiesRow(init + Rows(b, r, len, h), k + j, b, r + j, h)
  {
    var last := Rows(b, r, len, h);
    SliceRow(b, r, len, h, j);
    SpanMono(k + j + 1, k + len, h);
    SpanAdd(k, len, h);
    ConcatRow(init, last, k, h, k + j);
  }

  lemma CopiesEarlier(init: seq<int>, k: nat, more: seq<int>, h: nat, i: nat, b: seq<int>, r: nat)
    requires |init| == Span(k, h) && i < k && CopiesRow(init, i, b, r, h)
    ensures CopiesRow(init + more, i, b, r, h)
  {
    ConcatRow(init, more, k, h, i);
  }

  /** Where each row of an export comes from. */
  lemma {:induction false} ExportedRow(b: seq<int>, g: Shape, start: nat, len: nat, n: nat, layer: nat, j: nat)
    requires Holds(b, g) && n <= g.layers && start + len <= g.maxSeq && layer < n && j < len
    ensures CopiesRow(Exported(b, g, start, len, n), Span(layer, len) + j, b, RowNo(g, layer, start) + j, g.rowCells)
  {
    var h, k, r := g.rowCells, Span(n - 1, len), RowNo(g, n - 1, start);
    var init := Exported(b, g, start, len, n - 1);
    RowInside(b, g, n - 1, start, len);
    var last := Rows(b, r, len, h);
    assert Exported(b, g, start, len, n) == init + last;
    if layer == n - 1 {
      CopiesLast(init, k, b, r, len, h, j);
    } else {
      var i, e := Span(layer, len) + j, RowNo(g, layer, start) + j;
      ExportedRowNo(n - 1, len, layer, j);
      ExportedRow(b, g, start, len, n - 1, layer, j);
      CopiesEarlier(init, k, last, h, i, b, e);
    }
  }

  // ---------- import ----------

  /** The first n layers of an exported interval written back. */
  function Imported(b: seq<int>, g: Shape, start: nat, len: nat, d: seq<int>, n: nat): (r: seq<int>)
    requires Holds(b, g) && n <= g.layers && start + len <= g.maxSeq && Span(Span(g.layers, len), g.rowCells) <= |d|
    ensures |r| == |b|
  {
    if n == 0 then b
    else
      RowInside(b, g, n - 1, start, len);
      SpanMono(n, g.layers, len);
      SpanMono(Span(n, len), Span(g.layers, len), g.rowCells);
      SpliceRows(Imported(b, g, start, len, d, n - 1), RowNo(g, n - 1, start), len, g.rowCells,
                 Rows(d, Span(n - 1, len), len, g.rowCells))
  }

  lemma RowOrder(g: Shape, layer: nat, p: nat, other: nat, start: nat, len: nat)
    requires p < g.maxSeq && start + len <= g.maxSeq
    ensures layer == other && start <= p < start + len ==> RowNo(g, other, start) <= RowNo(g, layer, p) < RowNo(g, other, start) + len
    ensures !(layer == other && start <= p < start + len)
      ==> RowNo(g, layer, p) < RowNo(g, other, start) || RowNo(g, other, start) + len <= RowNo(g, layer, p)
  {
    if layer < other { SpanMono(layer + 1, other, g.maxSeq); }
    if other < layer { SpanMono(other + 1, layer, g.maxSeq); }
  }

  lemma ImportedStep(b: seq<int>, g: Shape, start: nat, len: nat, d: seq<int>, n: nat)
    requires Holds(b, g) && 0 < n <= g.layers && start + len <= g.maxSeq && Span(Span(g.layers, len), g.rowCells) <= |d|
    ensures Span(RowNo(g, n - 1, start) + len, g.rowCells) <= |b| && Span(Span(n - 1, len) + len, g.rowCells) <= |d|
    ensures Imported(b, g, start, len, d, n) == SpliceRows(Imported(b, g, start, len, d, n - 1), RowNo(g, n - 1, start), len, g.rowCells,
                                                           Rows(d, Span(n - 1, len), len, g.rowCells))
  {
    RowInside(b, g, n - 1, start, len);
    SpanMono(n, g.layers, len);
    SpanMono(Span(n, len), Span(g.layers, len), g.rowCells);
  }

  lemma SplicedCopies(before: seq<int>, at: nat, len: nat, h: nat, d: seq<int>, k: nat, j: nat)
    requires Span(at + len, h) <= |before| && Span(k + len, h) <= |d| && j < len
    ensures CopiesRow(SpliceRows(before, at, len, h, Rows(d, k, len, h)), at + j, d, k + j, h)
  {
    SpanMono(at + j + 1, at + len, h);
    SplicedRow(before, at, len, h, Rows(d, k, len, h), at + j);
    SliceRow(d, k, len, h, j);
  }

  lemma UnsplicedCopies(before: seq<int>, at: nat, len: nat, h: nat, part: seq<int>, i: nat, b: seq<int>, r: nat)
    requires Span(at + len, h) <= |before| && |part| == Span(len, h) && (i < at || at + len <= i)
    requires CopiesRow(before, i, b, r, h)
    ensures CopiesRow(SpliceRows(before, at, len, h, part), i, b, r, h)
  {
    UnsplicedRow(before, at, len, h, part, i);
  }

  /** An imported row is the exported one; n is how many layers have been written. */
  lemma {:induction false} ImportedRow(b: seq<int>, g: Shape, start: nat, len: nat, d: seq<int>, n: nat, layer: nat, j: nat)
    requires Holds(b, g) && n <= g.layers && start + len <= g.maxSeq && Span(Span(g.layers, len), g.rowCells) <= |d|
    requires layer < n && j < len
    ensures CopiesRow(Imported(b, g, start, len, d, n), RowNo(g, layer, start) + j, d, Span(layer, len) + j, g.rowCells)
  {
    var last := n - 1;
    var h, k, r := g.rowCells, Span(last, len), RowNo(g, last, start);
    var before := Imported(b, g, start, len, d, last);
    ImportedStep(b, g, start, len, d, n);
    var part := Rows(d, k, len, h);
    assert Imported(b, g, start, len, d, n) == SpliceRows(before, r, len, h, part);
    if layer == last {
      SplicedCopies(before, r, len, h, d, k, j);
    } else {
      var i, e := RowNo(g, layer, start) + j, Span(layer, len) + j;
      ImportedRow(b, g, start, len, d, last, layer, j);
      RowOrder(g, layer, start + j, last, start, len);
      UnsplicedCopies(before, r, len, h, part, i, d, e);
    }
  }

  /** Rows outside the interval keep their contents. */
  lemma {:induction false} UnimportedRow(b: seq<int>, g: Shape, start: nat, len: nat, d: seq<int>, n: nat, layer: nat, p: nat)
    requires Holds(b, g) && n <= g.layers && start + len <= g.maxSeq && Span(Span(g.layers, len), g.rowCells) <= |d|
    requires layer < g.layers && p < g.maxSeq && !(start <= p < start + len)
    ensures CopiesRow(Imported(b, g, start, len, d, n), RowNo(g, layer, p), b, RowNo(g, layer, p), g.rowCells)
  {
    RowInside(b, g, layer, p, 1);
    if n > 0 {
      var last := n - 1;
      var h, k, r := g.rowCells, Span(last, len), RowNo(g, last, start);
      var before := Imported(b, g, start, len, d, last);
      ImportedStep(b, g, start, len, d, n);
      UnimportedRow(b, g, start, len, d, last, layer, p);
      RowOrder(g, layer, p, last, start, len);
      UnsplicedCopies(before, r, len, h, Rows(d, k, len, h), RowNo(g, layer, p), b, RowNo(g, layer, p));
    }
  }

  // ---------- carriers ----------

  /** The exported cells in their carrier: whole 32-bit floats, the rest zero. */
  function Carried(out: seq<int>, total: nat): (d: seq<int>)
    ensures |d| == if |out| <= total then total else |out|
    ensures out <= d
  {
    if |out| <= total then out + seq(total - |out|, _ => 0) else out
  }

  lemma {:induction false} SpanWider(n: nat, h: nat, w: nat)
    requires h <= w
    ensures Span(n, h) <= Span(n, w)
  {
    if n > 0 { SpanWider(n - 1, h, w); }
  }

  function Export(b: seq<int>, g: Shape, start: nat, len: nat): (d: seq<int>)
    requires ShapeOk(g) && Holds(b, g) && start + len <= g.maxSeq
    ensures |d| == Span(Span(g.layers, len), g.carrierCells)
    ensures Span(Span(g.layers, len), g.rowCells) <= |d|
  {
    SpanWider(Span(g.layers, len), g.rowCells, g.carrierCells);
    Carried(Exported(b, g, start, len, g.layers), Span(Span(g.layers, len), g.carrierCells))
  }

  function Import(b: seq<int>, g: Shape, start: nat, len: nat, d: seq<int>): (r: seq<int>)
    requires Holds(b, g) && start + len <= g.maxSeq && Span(Span(g.layers, len), g.rowCells) <= |d|
    ensures |r| == |b|
  {
    Imported(b, g, start, len, d, g.layers)
  }

  // ---------- moving a prefix interval by interval ----------

  /** a and b hold the same row for token p of an allocated layer. */
  predicate SameSlot(a: seq<int>, b: seq<int>, g: Shape, layer: nat, p: nat) {
    CopiesRow(a, RowNo(g, layer, p), b, RowNo(g, layer, p), g.rowCells)
  }

  lemma ExportedSlot(b: seq<int>, g: Shape, start: nat, len: nat, layer: nat, j: nat)
    requires ShapeOk(g) && Holds(b, g) && start + len <= g.maxSeq && layer < g.layers && j < len
    ensures CopiesRow(Export(b, g, start, len), Span(layer, len) + j, b, RowNo(g, layer, start) + j, g.rowCells)
  {
    var out := Exported(b, g, start, len, g.layers);
    ExportedRow(b, g, start, len, g.layers, layer, j);
    ExportedRowNo(g.layers, len, layer, j);
    var d := Export(b, g, start, len);
    assert d == out + d[|out|..];
    CopiesEarlier(out, Span(g.layers, len), d[|out|..], g.rowCells, Span(layer, len) + j, b, RowNo(g, layer, start) + j);
  }

  lemma CopiesTransitive(a: seq<int>, i: nat, b: seq<int>, j: nat, c: seq<int>, k: nat, h: nat)
    requires CopiesRow(a, i, b, j, h) && CopiesRow(b, j, c, k, h)
    ensures CopiesRow(a, i, c, k, h)
  {
  }

  /** Importing an exported interval moves exactly that interval's rows. */
  lemma MovedSlot(dst: seq<int>, src: seq<int>, g: Shape, start: nat, len: nat, layer: nat, p: nat)
    requires ShapeOk(g) && Holds(dst, g) && Holds(src, g) && start + len <= g.maxSeq && layer < g.layers && p < g.maxSeq
    ensures SameSlot(Import(dst, g, start, len, Export(src, g, start, len)), if start <= p < start + len then src else dst, g, layer, p)
  {
    var d := Export(src, g, start, len);
    if start <= p < start + len {
      var j := p - start;
      ImportedRow(dst, g, start, len, d, g.layers, layer, j);
      ExportedSlot(src, g, start, len, layer, j);
      CopiesTransitive(Import(dst, g, start, len, d), RowNo(g, layer, start) + j, d, Span(layer, len) + j, src, RowNo(g, layer, start) + j, g.rowCells);
    } else {
      UnimportedRow(dst, g, start, len, d, g.layers, layer, p);
    }
  }

  function Total(lens: seq<nat>): nat {
    if |lens| == 0 then 0 else Total(lens[..|lens| - 1]) + lens[|lens| - 1]
  }

  /** Consecutive intervals of src, from token 0 on, imported one after the other. */
  function Restored(dst: seq<int>, src: seq<int>, g: Shape, lens: seq<nat>): (r: seq<int>)
    requires ShapeOk(g) && Holds(dst, g) && Holds(src, g) && Total(lens) <= g.maxSeq
    ensures |r| == |dst|
  {
    if |lens| == 0 then dst
    else
      var before := Restored(dst, src, g, lens[..|lens| - 1]);
      var start, len := Total(lens[..|lens| - 1]), lens[|lens| - 1];
      Import(before, g, start, len, Export(src, g, start, len))
  }

  lemma {:induction false} RestoredSlot(dst: seq<int>, src: seq<int>, g: Shape, lens: seq<nat>, layer: nat, p: nat)
    requires ShapeOk(g) && Holds(dst, g) && Holds(src, g) && Total(lens) <= g.maxSeq && layer < g.layers && p < g.maxSeq
    ensures SameSlot(Restored(dst, src, g, lens), if p < Total(lens) then src else dst, g, layer, p)
  {
    if |lens| == 0 {
      RowInside(dst, g, layer, p, 1);
    } else {
      var init := lens[..|lens| - 1];
      var before, start, len := Restored(dst, src, g, init), Total(init), lens[|lens| - 1];
      MovedSlot(before, src, g, start, len, layer, p);
      RestoredSlot(dst, src, g, init, layer, p);
      if !(start <= p < start + len) {
        var i, from := RowNo(g, layer, p), if p < start then src else dst;
        CopiesTransitive(Restored(dst, src, g, lens), i, before, i, from, i, g.rowCells);
      }
    }
  }

  /** Two buffers that agree on the slots of an interval export the same. */
  lemma ExportAgrees(a: seq<int>, b: seq<int>, g: Shape, start: nat, len: nat)
    requires ShapeOk(g) && Holds(a, g) && Holds(b, g) && start + len <= g.maxSeq
    requires forall layer, p :: 0 <= layer < g.layers && start <= p < start + len ==> SameSlot(a, b, g, layer, p)
    ensures Export(a, g, start, len) == Export(b, g, start, len)
  {
    ExportedAgrees(a, b, g, start, len, g.layers);
  }

  lemma {:induction false} ExportedAgrees(a: seq<int>, b: seq<int>, g: Shape, start: nat, len: nat, n: nat)
    requires Holds(a, g) && Holds(b, g) && start + len <= g.maxSeq && n <= g.layers
    requires forall layer, p :: 0 <= layer < g.layers && start <= p < start + len ==> SameSlot(a, b, g, layer, p)
    ensures Exported(a, g, start, len, n) == Exported(b, g, start, len, n)
  {
    if n > 0 {
      ExportedAgrees(a, b, g, start, len, n - 1);
      RowInside(a, g, n - 1, start, len);
      RowInside(b, g, n - 1, start, len);
      LayerAgrees(a, b, g, n - 1, start, len);
    }
  }

  lemma LayerAgrees(a: seq<int>, b: seq<int>, g: Shape, layer: nat, start: nat, len: nat)
    requires Span(RowNo(g, layer, start) + len, g.rowCells) <= |a| && Span(RowNo(g, layer, start) + len, g.rowCells) <= |b|
    requires layer < g.layers
    requires forall layer, p :: 0 <= layer < g.layers && start <= p < start + len ==> SameSlot(a, b, g, layer, p)
    ensures Rows(a, RowNo(g, layer, start), len, g.rowCells) == Rows(b, RowNo(g, layer, start), len, g.rowCells)
  {
    var r, h := RowNo(g, layer, start), g.rowCells;
    var x, y := Rows(a, r, len, h), Rows(b, r, len, h);
    forall j | 0 <= j < len ensures SameRow(x, y, h, j) {
      SliceRow(a, r, len, h, j);
      SliceRow(b, r, len, h, j);
      assert SameSlot(a, b, g, layer, start + j);
    }
    RowsDetermine(x, y, h, len);
  }

  /** Any split of [0, n) into consecutive intervals moves exactly the state up to n. */
  lemma RestoredExports(dst: seq<int>, src: seq<int>, g: Shape, lens: seq<nat>)
    requires ShapeOk(g) && Holds(dst, g) && Holds(src, g) && Total(lens) <= g.maxSeq
    ensures Export(Restored(dst, src, g, lens), g, 0, Total(lens)) == Export(src, g, 0, Total(lens))
  {
    var r := Restored(dst, src, g, lens);
    forall layer, p | 0 <= layer < g.layers && 0 <= p < 0 + Total(lens) ensures SameSlot(r, src, g, layer, p) {
      RestoredSlot(dst, src, g, lens, layer, p);
    }
    ExportAgrees(r, src, g, 0, Total(lens));
  }

  // ---------- the layer map ----------

  predicate Injective(layerMap: seq<Option<nat>>) {
    forall i, j :: 0 <= i < j < |layerMap| && layerMap[i].Some? ==> layerMap[i] != layerMap[j]
  }

  /** One more than the greatest slot in use. */
  function Slots(layerMap: seq<Option<nat>>): (n: nat)
    ensures forall i :: 0 <= i < |layerMap| && layerMap[i].Some? ==> layerMap[i].value < n
  {
    if |layerMap| == 0 then 0
    else
      var n, last := Slots(layerMap[..|layerMap| - 1]), layerMap[|layerMap| - 1];
      if last.Some? && last.value >= n then last.value + 1 else n
  }

  function Mapped(layerMap: seq<Option<nat>>): nat {
    if |layerMap| == 0 then 0
    else Mapped(layerMap[..|layerMap| - 1]) + if layerMap[|layerMap| - 1].Some? then 1 else 0
  }

  ghost function Used(layerMap: seq<Option<nat>>): set<nat> {
    set i | 0 <= i < |layerMap| && layerMap[i].Some? :: layerMap[i].value
  }

  lemma {:induction false} UsedSize(layerMap: seq<Option<nat>>)
    requires Injective(layerMap)
    ensures |Used(layerMap)| == Mapped(layerMap)
  {
    if |layerMap| > 0 {
      var n := |layerMap| - 1;
      UsedSize(layerMap[..n]);
      UsedNext(layerMap, n);
      if layerMap[n].Some? { assert layerMap[n].value !in Used(layerMap[..n]); }
    }
  }

  lemma UsedNext(layerMap: seq<Option<nat>>, n: nat)
    requires |layerMap| == n + 1
    ensures Used(layerMap) == Used(layerMap[..n]) + (if layerMap[n].Some? then {layerMap[n].value} else {})
  {
  }

  ghost function Below(n: nat): (s: set<nat>)
    ensures forall x: nat :: x in s <==> x < n
    ensures |s| == n
  {
    if n == 0 then {}
    else
      var fewer := Below(n - 1);
      assert n - 1 !in fewer && |fewer + {n - 1}| == |fewer| + 1;
      fewer + {n - 1}
  }

  /** No more layers are mapped than slots exist: the greatest slot alone gives the number of allocated layers. */
  lemma MappedBelowSlots(layerMap: seq<Option<nat>>)
    requires Injective(layerMap)
    ensures Mapped(layerMap) <= Slots(layerMap)
  {
    var n := Slots(layerMap);
    UsedSize(layerMap);
    assert Used(layerMap) <= Below(n);
    SubsetSize(Used(layerMap), Below(n));
  }

  predicate MapsInto(layerMap: seq<Option<nat>>, n: nat) {
    forall i :: 0 <= i < |layerMap| && layerMap[i].Some? ==> layerMap[i].value < n
  }

  lemma {:induction false} SlotsBelow(layerMap: seq<Option<nat>>, n: nat)
    requires MapsInto(layerMap, n)
    ensures Slots(layerMap) <= n
  {
    if |layerMap| > 0 {
      assert layerMap[|layerMap| - 1].Some? ==> layerMap[|layerMap| - 1].value < n;
      SlotsBelow(layerMap[..|layerMap| - 1], n);
    }
  }

  /** The construction loop: layer numbers out of range are skipped, a repeated one keeps its last slot. */
  method BuildLayerMap(nLayers: nat, attention: seq<nat>) returns (layerMap: seq<Option<nat>>)
    ensures |layerMap| == nLayers && Injective(layerMap) && MapsInto(layerMap, |attention|)
    ensures forall l :: 0 <= l < nLayers ==> (layerMap[l].Some? <==> l in attention)
    ensures forall l :: 0 <= l < nLayers && layerMap[l].Some? ==> attention[layerMap[l].value] == l
  {
    layerMap := seq(nLayers, _ => None);
    for i := 0 to |attention|
      invariant |layerMap| == nLayers && MapsInto(layerMap, i)
      invariant forall l :: 0 <= l < nLayers ==> (layerMap[l].Some? <==> l in attention[..i])
      invariant forall l :: 0 <= l < nLayers && layerMap[l].Some? ==> attention[layerMap[l].value] == l
    {
      assert attention[..i + 1] == attention[..i] + [attention[i]];
      if attention[i] < nLayers {
        layerMap := layerMap[attention[i] := Some(i)];
      }
    }
    assert attention[..|attention|] == attention;
  }

  method NAllocatedLayers(layerMap: seq<Option<nat>>) returns (n: nat)
    requires Injective(layerMap)
    ensures n == Slots(layerMap)
  {
    var maxIdx, count := 0, 0;
    for i := 0 to |layerMap|
      invariant maxIdx == Slots(layerMap[..i]) && count == Mapped(layerMap[..i])
    {
      assert layerMap[..i + 1][..i] == layerMap[..i];
      if layerMap[i].Some? {
        count := count + 1;
        maxIdx := if layerMap[i].value + 1 > maxIdx then layerMap[i].value + 1 else maxIdx;
      }
    }
    assert layerMap[..|layerMap|] == layerMap;
    MappedBelowSlots(layerMap);
    n := if maxIdx > count then maxIdx else count;
  }

  // ---------- the mutable cache ----------

  /** `copy_from_slice`: cells [from, from + n) of src written at `at`. */
  method CopyFromSlice(dst: array<int>, at: nat, src: seq<int>, from: nat, n: nat)
    requires at + n <= dst.Length && from + n <= |src|
    modifies dst
    ensures dst[..] == Splice(old(dst[..]), at, src[from..from + n])
  {
    for i := 0 to n
      invariant dst[..at] == old(dst[..at])
      invariant dst[at..at + i] == src[from..from + i]
      invariant dst[at + n..] == old(dst[at + n..])
    {
      dst[at + i] := src[from + i];
      assert dst[at..at + i + 1] == dst[at..at + i] + [src[from + i]];
    }
    assert dst[..] == dst[..at] + dst[at..at + n] + dst[at + n..];
  }

  /** One layer's cells of an export, with the guard of the copy loop, which always holds. */
  method LayerSlice(b: array<int>, g: Shape, layer: nat, start: nat, len: nat) returns (cells: seq<int>)
    requires Holds(b[..], g) && layer < g.layers && start + len <= g.maxSeq
    ensures Span(RowNo(g, layer, start) + len, g.rowCells) <= |b[..]|
    ensures cells == Rows(b[..], RowNo(g, layer, start), len, g.rowCells)
  {
    var first := (layer * g.maxSeq + start) * g.rowCells;
    var end := first + len * g.rowCells;
    SpanIs(layer, g.maxSeq);
    SpanIs(RowNo(g, layer, start), g.rowCells);
    SpanIs(len, g.rowCells);
    SpanAdd(RowNo(g, layer, start), len, g.rowCells);
    RowInside(b[..], g, layer, start, len);
    cells := if end <= b.Length then b[first..end] else [];
  }

  method ExportPlain(b: array<int>, g: Shape, start: nat, len: nat) returns (out: seq<int>)
    requires Holds(b[..], g) && start + len <= g.maxSeq
    ensures out == Exported(b[..], g, start, len, g.layers)
  {
    out := [];
    for layer := 0 to g.layers
      invariant out == Exported(b[..], g, start, len, layer)
    {
      var cells := LayerSlice(b, g, layer, start, len);
      out := out + cells;
    }
  }

  lemma SpliceZeros(out: seq<int>, zeros: seq<int>, cells: seq<int>)
    requires |cells| <= |zeros|
    ensures Splice(out + zeros, |out|, cells) == (out + cells) + zeros[|cells|..]
  {
  }

  method PutCells(carrier: array<int>, at: nat, cells: seq<int>, ghost out: seq<int>, ghost zeros: seq<int>)
    requires carrier[..] == out + zeros && at == |out| && |cells| <= |zeros|
    modifies carrier
    ensures carrier[..] == (out + cells) + zeros[|cells|..]
  {
    SpliceZeros(out, zeros, cells);
    assert cells[0..0 + |cells|] == cells;
    CopyFromSlice(carrier, at, cells, 0, |cells|);
  }

  /** Layer by layer into a zeroed carrier of whole floats. */
  method ExportPacked(b: array<int>, g: Shape, start: nat, len: nat) returns (d: seq<int>)
    requires ShapeOk(g) && Holds(b[..], g) && start + len <= g.maxSeq
    ensures d == Export(b[..], g, start, len)
  {
    var total := g.layers * len * g.carrierCells;
    SpanIs(g.layers, len);
    SpanIs(Span(g.layers, len), g.carrierCells);
    SpanWider(Span(g.layers, len), g.rowCells, g.carrierCells);
    var carrier := new int[total](_ => 0);
    ghost var out := [];
    ghost var zeros := carrier[..];
    for layer := 0 to g.layers
      invariant out == Exported(b[..], g, start, len, layer)
      invariant carrier[..] == out + zeros && zeros == seq(|zeros|, _ => 0)
    {
      var cells := LayerSlice(b, g, layer, start, len);
      CarrierRoom(g, len, layer);
      PutCells(carrier, layer * len * g.rowCells, cells, out, zeros);
      out, zeros := out + cells, zeros[|cells|..];
    }
    d := carrier[..];
  }

  lemma CarrierRoom(g: Shape, len: nat, layer: nat)
    requires ShapeOk(g) && layer < g.layers
    ensures layer * len * g.rowCells == Span(Span(layer, len), g.rowCells)
    ensures Span(Span(layer, len), g.rowCells) + Span(len, g.rowCells) <= Span(Span(g.layers, len), g.carrierCells)
  {
    SpanIs(layer, len);
    SpanIs(Span(layer, len), g.rowCells);
    SpanAdd(Span(layer, len), len, g.rowCells);
    SpanMono(layer + 1, g.layers, len);
    SpanMono(Span(layer, len) + len, Span(g.layers, len), g.rowCells);
    SpanWider(Span(g.layers, len), g.rowCells, g.carrierCells);
  }

  /** One layer's cells written back, with the guard of the copy loop, which always holds. */
  method ImportLayer(b: array<int>, g: Shape, layer: nat, start: nat, len: nat, d: seq<int>)
    requires Holds(b[..], g) && layer < g.layers && start + len <= g.maxSeq && Span(Span(g.layers, len), g.rowCells) <= |d|
    modifies b
    ensures Span(RowNo(g, layer, start) + len, g.rowCells) <= b.Length && Span(Span(layer, len) + len, g.rowCells) <= |d|
    ensures b[..] == SpliceRows(old(b[..]), RowNo(g, layer, start), len, g.rowCells, Rows(d, Span(layer, len), len, g.rowCells))
  {
    var dst := layer * g.maxSeq * g.rowCells + start * g.rowCells;
    var dstEnd := dst + len * g.rowCells;
    var src := layer * len * g.rowCells;
    ImportOffsets(b[..], g, layer, start, len, d);
    if dstEnd <= b.Length {
      CopyFromSlice(b, dst, d, src, len * g.rowCells);
    }
  }

  lemma ImportOffsets(b: seq<int>, g: Shape, layer: nat, start: nat, len: nat, d: seq<int>)
    requires Holds(b, g) && layer < g.layers && start + len <= g.maxSeq && Span(Span(g.layers, len), g.rowCells) <= |d|
    ensures var h := g.rowCells;
      && layer * g.maxSeq * h + start * h == Span(RowNo(g, layer, start), h)
      && layer * len * h == Span(Span(layer, len), h) && len * h == Span(len, h)
      && Span(RowNo(g, layer, start), h) + Span(len, h) == Span(RowNo(g, layer, start) + len, h) <= |b|
      && Span(Span(layer, len), h) + Span(len, h) == Span(Span(layer, len) + len, h) <= |d|
  {
    var h := g.rowCells;
    SpanIs(layer, g.maxSeq);
    SpanIs(layer, len);
    SpanIs(Span(layer, g.maxSeq), h);
    SpanIs(start, h);
    SpanIs(len, h);
    SpanIs(Span(layer, len), h);
    SpanAdd(Span(layer, g.maxSeq), start, h);
    SpanAdd(RowNo(g, layer, start), len, h);
    SpanAdd(Span(layer, len), len, h);
    RowInside(b, g, layer, start, len);
    SpanMono(layer + 1, g.layers, len);
    SpanMono(Span(layer, len) + len, Span(g.layers, len), h);
  }

  method ImportBuffer(b: array<int>, g: Shape, start: nat, len: nat, d: seq<int>)
    requires Holds(b[..], g) && start + len <= g.maxSeq && Span(Span(g.layers, len), g.rowCells) <= |d|
    modifies b
    ensures b[..] == Import(old(b[..]), g, start, len, d)
  {
    ghost var was := b[..];
    for layer := 0 to g.layers
      invariant b[..] == Imported(was, g, start, len, d, layer)
    {
      ImportLayer(b, g, layer, start, len, d);
      ImportedStep(was, g, start, len, d, layer + 1);
    }
  }

  /** When an import of kLen and vLen carrier cells is accepted. */
  predicate Importable(g: Shape, start: nat, tokens: nat, kLen: nat, vLen: nat) {
    && start + tokens <= g.maxSeq
    && kLen == vLen == Span(Span(g.layers, tokens), g.carrierCells)
    && Span(g.layers, tokens) <= MAX_USIZE && Span(Span(g.layers, tokens), g.floats) <= MAX_USIZE
  }

  /** `cells` counts 32-bit floats in the F32 cache and bytes in the packed ones. */
  class KvCache {
    const nLayers: nat
    const maxSeq: nat
    const kvDim: nat
    const precision: Precision
    const layerMap: seq<Option<nat>>
    const k: array<int>
    const v: array<int>
    var pos: nat

    ghost function G(): Shape {
      Shape(Slots(layerMap), maxSeq, RowCells(precision, kvDim), CarrierCells(precision, kvDim), CarrierFloats(precision, kvDim))
    }

    ghost predicate Valid()
      reads k, v
    {
      k != v && Injective(layerMap) && |layerMap| == nLayers && Holds(k[..], G()) && Holds(v[..], G())
    }

    constructor (nLayers: nat, maxSeq: nat, kvDim: nat, precision: Precision, layerMap: seq<Option<nat>>, total: nat)
      requires Injective(layerMap) && |layerMap| == nLayers
      requires Span(Span(Slots(layerMap), maxSeq), RowCells(precision, kvDim)) <= total
      ensures Valid() && fresh(k) && fresh(v) && pos == 0
      ensures this.nLayers == nLayers && this.maxSeq == maxSeq && this.kvDim == kvDim
      ensures this.precision == precision && this.layerMap == layerMap
    {
      this.nLayers, this.maxSeq, this.kvDim, this.precision, this.layerMap := nLayers, maxSeq, kvDim, precision, layerMap;
      k := new int[total](_ => 0);
      v := new int[total](_ => 0);
      pos := 0;
    }

    method Reset()
      modifies this`pos
      ensures pos == 0
    {
      pos := 0;
    }

    /** The first cell of the row of (layer, pos), or the reason why there is none. */
    method CheckedOffset(layer: nat, at: nat) returns (r: Result<nat, KvError>)
      requires Valid()
      ensures r == if layer >= nLayers || layerMap[layer].None? then Err(InvalidLayer(layer, nLayers))
                   else if at >= maxSeq then Err(ContextOverflow(at, maxSeq))
                   else Ok(Span(RowNo(G(), layerMap[layer].value, at), RowCells(precision, kvDim)))
    {
      if layer >= nLayers { return Err(InvalidLayer(layer, nLayers)); }
      if layerMap[layer].None? { return Err(InvalidLayer(layer, nLayers)); }
      if at >= maxSeq { return Err(ContextOverflow(at, maxSeq)); }
      var slot := layerMap[layer].value;
      SpanIs(slot, maxSeq);
      SpanIs(slot * maxSeq + at, RowCells(precision, kvDim));
      r := Ok((slot * maxSeq + at) * RowCells(precision, kvDim));
    }

    /** Encodes one token's key and value and writes the two rows; `encode` is the precision's row encoder. */
    method Store(layer: nat, at: nat, kIn: seq<real>, vIn: seq<real>, encode: seq<real> -> seq<int>) returns (r: Result<(), KvError>)
      requires Valid() && forall x :: |x| == kvDim ==> |encode(x)| == RowCells(precision, kvDim)
      modifies this`pos, k, v
      ensures Valid()
      ensures r.Ok? <==> |kIn| == |vIn| == kvDim && layer < nLayers && layerMap[layer].Some? && at < maxSeq
      ensures |kIn| != kvDim ==> r == Err(DimMismatch(kvDim, |kIn|))
      ensures |kIn| == kvDim != |vIn| ==> r == Err(DimMismatch(kvDim, |vIn|))
      ensures r.Err? ==> k[..] == old(k[..]) && v[..] == old(v[..]) && pos == old(pos)
      ensures r.Ok? ==>
        var row := Span(RowNo(G(), layerMap[layer].value, at), RowCells(precision, kvDim));
        && row + |encode(kIn)| <= k.Length && k[..] == Splice(old(k[..]), row, encode(kIn))
        && row + |encode(vIn)| <= v.Length && v[..] == Splice(old(v[..]), row, encode(vIn))
        && pos == (if at >= old(pos) then at + 1 else old(pos))
    {
      if |kIn| != kvDim { return Err(DimMismatch(kvDim, |kIn|)); }
      if |vIn| != kvDim { return Err(DimMismatch(kvDim, |vIn|)); }
      var offset := CheckedOffset(layer, at);
      if offset.Err? { return Err(offset.error); }
      WriteRow(layer, at, offset.value, encode(kIn), encode(vIn));
      r := Ok(());
    }

    method WriteRow(layer: nat, at: nat, offset: nat, kRow: seq<int>, vRow: seq<int>)
      requires Valid() && |kRow| == |vRow| == RowCells(precision, kvDim) && layer < nLayers && layerMap[layer].Some? && at < maxSeq
      requires offset == Span(RowNo(G(), layerMap[layer].value, at), RowCells(precision, kvDim))
      modifies this`pos, k, v
      ensures Valid()
      ensures offset + |kRow| <= k.Length && k[..] == Splice(old(k[..]), offset, kRow)
      ensures offset + |vRow| <= v.Length && v[..] == Splice(old(v[..]), offset, vRow)
      ensures pos == if at >= old(pos) then at + 1 else old(pos)
    {
      ghost var g, slot := G(), layerMap[layer].value;
      RowInside(k[..], g, slot, at, 1);
      RowInside(v[..], g, slot, at, 1);
      assert kRow[0..0 + |kRow|] == kRow && vRow[0..0 + |vRow|] == vRow;
      CopyFromSlice(k, offset, kRow, 0, |kRow|);
      CopyFromSlice(v, offset, vRow, 0, |vRow|);
      if at >= pos { pos := at + 1; }
    }

    method ExportStateRange(start: nat, tokens: nat) returns (r: Result<(seq<int>, seq<int>), KvError>)
      requires Valid()
      ensures start + tokens > maxSeq ==> r.Err?
      ensures start + tokens <= maxSeq ==> r == Ok((Export(k[..], G(), start, tokens), Export(v[..], G(), start, tokens)))
    {
      if start > maxSeq || tokens > maxSeq - start {
        var end := start + tokens;
        return Err(ContextOverflow(if end > MAX_USIZE then MAX_USIZE else end, maxSeq));
      }
      var layers := NAllocatedLayers(layerMap);
      var g := Shape(layers, maxSeq, RowCells(precision, kvDim), CarrierCells(precision, kvDim), CarrierFloats(precision, kvDim));
      if precision.F32? {
        var kOut := ExportPlain(k, g, start, tokens);
        var vOut := ExportPlain(v, g, start, tokens);
        CarriedWhole(kOut);
        CarriedWhole(vOut);
        r := Ok((kOut, vOut));
      } else {
        var kOut := ExportPacked(k, g, start, tokens);
        var vOut := ExportPacked(v, g, start, tokens);
        r := Ok((kOut, vOut));
      }
    }

    method ExportState(upTo: nat) returns (r: Result<(seq<int>, seq<int>), KvError>)
      requires Valid()
      ensures var n := if upTo < maxSeq then upTo else maxSeq;
        r == Ok((Export(k[..], G(), 0, n), Export(v[..], G(), 0, n)))
    {
      r := ExportStateRange(0, if upTo < maxSeq then upTo else maxSeq);
    }

    /** Imports an interval without moving the active position. */
    method ImportStateAt(start: nat, tokens: nat, kData: seq<int>, vData: seq<int>) returns (r: Result<(), KvError>)
      requires Valid()
      modifies k, v
      ensures Valid()
      ensures r.Ok? <==> Importable(G(), start, tokens, |kData|, |vData|)
      ensures r.Err? ==> k[..] == old(k[..]) && v[..] == old(v[..])
      ensures r.Ok? ==> Span(Span(G().layers, tokens), G().rowCells) <= |kData|
      ensures r.Ok? ==> k[..] == Import(old(k[..]), G(), start, tokens, kData) && v[..] == Import(old(v[..]), G(), start, tokens, vData)
    {
      var layers := NAllocatedLayers(layerMap);
      var g := Shape(layers, maxSeq, RowCells(precision, kvDim), CarrierCells(precision, kvDim), CarrierFloats(precision, kvDim));
      if start > maxSeq || tokens > maxSeq - start {
        var end := start + tokens;
        return Err(ContextOverflow(if end > MAX_USIZE then MAX_USIZE else end, maxSeq));
      }
      var expected, cells := layers * tokens * g.floats, layers * tokens * g.carrierCells;
      SpanIs(layers, tokens);
      SpanIs(Span(layers, tokens), g.floats);
      SpanIs(Span(layers, tokens), g.carrierCells);
      if layers * tokens > MAX_USIZE || expected > MAX_USIZE {
        return Err(AllocationOverflow(layers, tokens, if precision.F32? then kvDim else g.rowCells));
      }
      if |kData| != cells || |vData| != cells { return Err(DimMismatch(expected, |kData| / FloatCells(precision))); }
      SpanWider(Span(layers, tokens), g.rowCells, g.carrierCells);
      ImportBuffer(k, g, start, tokens, kData);
      ImportBuffer(v, g, start, tokens, vData);
      r := Ok(());
    }

    /** Imports an interval and moves the active position to its end. */
    method ImportStateRange(start: nat, tokens: nat, kData: seq<int>, vData: seq<int>) returns (r: Result<(), KvError>)
      requires Valid()
      modifies this`pos, k, v
      ensures Valid()
      ensures r.Ok? <==> Importable(G(), start, tokens, |kData|, |vData|)
      ensures r.Err? ==> k[..] == old(k[..]) && v[..] == old(v[..]) && pos == old(pos)
      ensures r.Ok? ==> Span(Span(G().layers, tokens), G().rowCells) <= |kData| && pos == start + tokens
      ensures r.Ok? ==> k[..] == Import(old(k[..]), G(), start, tokens, kData) && v[..] == Import(old(v[..]), G(), start, tokens, vData)
    {
      r := ImportStateAt(start, tokens, kData, vData);
      if r.Ok? { pos := start + tokens; }
    }
  }

  // ---------- a whole cache, piece by piece ----------

  /** One piece's export can be addressed. */
  predicate PieceFits(g: Shape, len: nat) {
    Span(g.layers, len) <= MAX_USIZE && Span(Span(g.layers, len), g.floats) <= MAX_USIZE
  }

  /** Two caches of one shape with nothing in common. */
  ghost predicate Alike(src: KvCache, dst: KvCache)
    reads src.k, src.v, dst.k, dst.v
  {
    src.Valid() && dst.Valid() && src.G() == dst.G() && src.maxSeq == dst.maxSeq && src != dst && {src.k, src.v} !! {dst.k, dst.v}
  }

  /** Exporting consecutive intervals of one cache and importing them into another, whatever the partition:
      the other then exports the same, and stands at the partition's end. */
  method Transfer(src: KvCache, dst: KvCache, lens: seq<nat>) returns (ok: bool)
    requires Alike(src, dst) && Total(lens) <= src.maxSeq
    modifies dst`pos, dst.k, dst.v
    ensures Alike(src, dst) && (ok <==> forall i :: 0 <= i < |lens| ==> PieceFits(src.G(), lens[i]))
    ensures ok && |lens| > 0 ==> dst.pos == Total(lens)
    ensures ok ==> Export(dst.k[..], src.G(), 0, Total(lens)) == Export(src.k[..], src.G(), 0, Total(lens))
    ensures ok ==> Export(dst.v[..], src.G(), 0, Total(lens)) == Export(src.v[..], src.G(), 0, Total(lens))
  {
    ghost var k0, v0 := dst.k[..], dst.v[..];
    var start := 0;
    assert lens[..0] == [];
    for i := 0 to |lens|
      invariant Moved(src, dst, k0, v0, lens, i, start) && (i > 0 ==> dst.pos == start)
      invariant forall j :: 0 <= j < i ==> PieceFits(src.G(), lens[j])
    {
      var fits := MoveNext(src, dst, k0, v0, lens, i, i + 1, start);
      if !fits { return false; }
      start := start + lens[i];
    }
    assert lens[..|lens|] == lens;
    RestoredExports(k0, src.k[..], src.G(), lens);
    RestoredExports(v0, src.v[..], src.G(), lens);
    ok := true;
  }

  /** The first i pieces have been moved into a cache that held k0 and v0. */
  ghost predicate Moved(src: KvCache, dst: KvCache, k0: seq<int>, v0: seq<int>, lens: seq<nat>, i: nat, start: nat)
    reads src.k, src.v, dst.k, dst.v
    requires i <= |lens|
  {
    && Alike(src, dst) && start == Total(lens[..i]) <= src.maxSeq && Holds(k0, src.G()) && Holds(v0, src.G())
    && dst.k[..] == Restored(k0, src.k[..], src.G(), lens[..i]) && dst.v[..] == Restored(v0, src.v[..], src.G(), lens[..i])
  }

  method MoveNext(src: KvCache, dst: KvCache, ghost k0: seq<int>, ghost v0: seq<int>, lens: seq<nat>, i: nat, next: nat, start: nat) returns (ok: bool)
    requires i < |lens| && next == i + 1 && Moved(src, dst, k0, v0, lens, i, start) && Total(lens) <= src.maxSeq
    modifies dst`pos, dst.k, dst.v
    ensures Alike(src, dst) && (ok <==> PieceFits(src.G(), lens[i]))
    ensures ok ==> Moved(src, dst, k0, v0, lens, next, start + lens[i]) && dst.pos == start + lens[i]
  {
    RestoredNext(k0, src.k[..], src.G(), lens, i, start);
    RestoredNext(v0, src.v[..], src.G(), lens, i, start);
    ok := MovePiece(src, dst, start, lens[i]);
  }

  lemma {:induction false} TotalNext(lens: seq<nat>, i: nat)
    requires i < |lens|
    ensures lens[..i + 1][..i] == lens[..i] && Total(lens[..i + 1]) == Total(lens[..i]) + lens[i] <= Total(lens)
    decreases |lens|
  {
    var init := lens[..|lens| - 1];
    if i < |init| {
      assert init[..i + 1] == lens[..i + 1] && init[..i] == lens[..i];
      TotalNext(init, i);
    } else {
      assert lens[..i + 1] == lens;
    }
  }

  lemma RestoredNext(dst: seq<int>, src: seq<int>, g: Shape, lens: seq<nat>, i: nat, start: nat)
    requires ShapeOk(g) && Holds(dst, g) && Holds(src, g) && i < |lens| && Total(lens) <= g.maxSeq && start == Total(lens[..i])
    ensures start + lens[i] == Total(lens[..i + 1]) <= g.maxSeq
    ensures Restored(dst, src, g, lens[..i + 1]) == Import(Restored(dst, src, g, lens[..i]), g, start, lens[i], Export(src, g, start, lens[i]))
  {
    TotalNext(lens, i);
  }

  method MovePiece(src: KvCache, dst: KvCache, start: nat, len: nat) returns (ok: bool)
    requires Alike(src, dst) && start + len <= src.maxSeq
    modifies dst`pos, dst.k, dst.v
    ensures Alike(src, dst) && (ok <==> PieceFits(src.G(), len))
    ensures ok ==> dst.pos == start + len
    ensures ok ==> dst.k[..] == Import(old(dst.k[..]), src.G(), start, len, Export(src.k[..], src.G(), start, len))
    ensures ok ==> dst.v[..] == Import(old(dst.v[..]), src.G(), start, len, Export(src.v[..], src.G(), start, len))
  {
    var exported := src.ExportStateRange(start, len);
    var imported := dst.ImportStateRange(start, len, exported.value.0, exported.value.1);
    ok := imported.Ok?;
  }

  lemma CarriedWhole(out: seq<int>)
    ensures Carried(out, |out|) == out
  {
  }

  /** Construction fails only when there are more than 65536 layers or the buffer would overflow. */
  method TryNew(nLayers: nat, maxSeq: nat, kvDim: nat, attention: seq<nat>, precision: Precision) returns (r: Result<KvCache, KvError>)
    ensures r.Ok? <==> nLayers <= 65536 && |attention| * maxSeq <= MAX_USIZE && |attention| * maxSeq * RowCells(precision, kvDim) <= MAX_USIZE
    ensures r.Ok? ==> var c := r.value;
      && fresh(c) && c.Valid() && c.pos == 0 && c.maxSeq == maxSeq && c.kvDim == kvDim && c.precision == precision
      && |c.layerMap| == nLayers && forall l :: 0 <= l < nLayers ==> (c.layerMap[l].Some? <==> l in attention)
  {
    if nLayers > 65536 { return Err(AllocationOverflow(nLayers, maxSeq, kvDim)); }
    var layerMap := BuildLayerMap(nLayers, attention);
    var n, h := |attention|, RowCells(precision, kvDim);
    var total := n * maxSeq * h;
    if n * maxSeq > MAX_USIZE || total > MAX_USIZE { return Err(AllocationOverflow(n, maxSeq, kvDim)); }
    SlotsBelow(layerMap, n);
    SpanMono(Slots(layerMap), n, maxSeq);
    SpanMono(Span(Slots(layerMap), maxSeq), Span(n, maxSeq), h);
    SpanIs(n, maxSeq);
    SpanIs(Span(n, maxSeq), h);
    var c := new KvCache(nLayers, maxSeq, kvDim, precision, layerMap, total);
    r := Ok(c);
  }
}
