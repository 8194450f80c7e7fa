/** What the writer writes, the reader reads back. */
module GgufRoundTrip {
  import opened Common
  import opened Bytes
  import opened QuantTypes
  import opened GgufReader
  import opened GgufWriter

  // ---------- what the writer may be given ----------

  /** A string within the reader's limits. */
  predicate StringOk(s: Data) {
    |s| <= 0x10_0000 && Utf8(s)
  }

  /** One of the five kinds of entries, and the value it stands for. */
  datatype Content = Uint32(n: nat) | Uint64(n: nat) | Float32(bits: nat) | String(s: Data) | Strings(items: seq<Data>)

  predicate ContentOk(c: Content) {
    match c
    case Uint32(n) => n < Pow256(4)
    case Uint64(n) => n < Pow256(8)
    case Float32(bits) => bits < Pow256(4)
    case String(s) => StringOk(s)
    case Strings(items) => |items| <= MAX_ARRAY_LEN && forall i :: 0 <= i < |items| ==> StringOk(items[i])
  }

  function EntryOf(key: Data, c: Content): Entry {
    match c
    case Uint32(n) => Entry(key, 4, Le(n, 4))
    case Uint64(n) => Entry(key, 10, Le(n, 8))
    case Float32(bits) => Entry(key, 6, Le(bits, 4))
    case String(s) => Entry(key, 8, EncodeString(s))
    case Strings(items) => Entry(key, 9, Le(8, 4) + (Le(|items|, 8) + EncodeStrings(items)))
  }

  function ValueOf(c: Content): Value {
    match c
    case Uint32(n) => Number(4, n)
    case Uint64(n) => Number(10, n)
    case Float32(bits) => Number(6, bits)
    case String(s) => Text(s)
    case Strings(items) => Array(Texts(items))
  }

  function Texts(items: seq<Data>): (v: seq<Value>) {
    if |items| == 0 then [] else [Text(items[0])] + Texts(items[1..])
  }

  // ---------- numbers and strings ----------

  lemma NumberRead(b: Data, p: nat, n: nat, k: nat, q: nat)
    requires At(b, p, Le(n, k)) && n < Pow256(k) && q == p + k
    ensures ReadNumber(b, p, k) == Ok(Parsed(n, q))
  {
    LeRoundTrip(n, k);
  }

  lemma Pow256Eight()
    ensures Pow256(8) == 0x1_0000_0000_0000_0000 && Pow256(4) == 0x1_0000_0000
  {
    assert Pow256(2) == 0x1_0000;
    assert Pow256(4) == 256 * (256 * Pow256(2));
    assert Pow256(6) == 256 * (256 * Pow256(4));
    assert Pow256(8) == 256 * (256 * Pow256(6));
  }

  lemma StringRead(b: Data, p: nat, s: Data, q: nat)
    requires At(b, p, EncodeString(s)) && StringOk(s) && q == p + 8 + |s|
    ensures ReadString(b, p) == Ok(Parsed(s, q))
  {
    Pow256Eight();
    AtSplit(b, p, Le(|s|, 8), s, p + 8);
    NumberRead(b, p, |s|, 8, p + 8);
  }

  lemma {:induction false} StringsRead(b: Data, p: nat, items: seq<Data>, q: nat)
    requires At(b, p, EncodeStrings(items)) && q == p + |EncodeStrings(items)|
    requires forall i :: 0 <= i < |items| ==> StringOk(items[i])
    ensures ReadItems(b, p, 8, |items|) == Ok(Parsed(Texts(items), q))
    decreases |items|
  {
    if |items| > 0 {
      var s, rest := items[0], items[1..];
      var next := p + 8 + |s|;
      AtSplit(b, p, EncodeString(s), EncodeStrings(rest), next);
      StringRead(b, p, s, next);
      StringsRead(b, next, rest, q);
    }
  }

  // ---------- values ----------

  lemma StringArrayRead(b: Data, p: nat, items: seq<Data>, q: nat)
    requires ContentOk(Strings(items)) && At(b, p, Le(8, 4) + (Le(|items|, 8) + EncodeStrings(items)))
    requires q == p + 12 + |EncodeStrings(items)|
    ensures ReadValue(b, p, 9) == Ok(Parsed(Array(Texts(items)), q))
  {
    Pow256Eight();
    AtSplit(b, p, Le(8, 4), Le(|items|, 8) + EncodeStrings(items), p + 4);
    AtSplit(b, p + 4, Le(|items|, 8), EncodeStrings(items), p + 12);
    NumberRead(b, p, 8, 4, p + 4);
    NumberRead(b, p + 4, |items|, 8, p + 12);
    StringsRead(b, p + 12, items, q);
  }

  lemma ContentRead(b: Data, p: nat, key: Data, c: Content, q: nat)
    requires ContentOk(c) && At(b, p, EntryOf(key, c).raw) && q == p + |EntryOf(key, c).raw|
    ensures ReadValue(b, p, EntryOf(key, c).code) == Ok(Parsed(ValueOf(c), q))
  {
    match c
    case Uint32(n) => NumberRead(b, p, n, 4, q);
    case Uint64(n) => NumberRead(b, p, n, 8, q);
    case Float32(bits) => NumberRead(b, p, bits, 4, q);
    case String(s) => StringRead(b, p, s, q);
    case Strings(items) => StringArrayRead(b, p, items, q);
  }

  // ---------- entries ----------

  datatype Pair = Pair(key: Data, content: Content)

  predicate PairOk(x: Pair) {
    StringOk(x.key) && ContentOk(x.content)
  }

  function EntriesOf(xs: seq<Pair>): (es: seq<Entry>)
    ensures |es| == |xs|
  {
    seq(|xs|, i requires 0 <= i < |xs| => EntryOf(xs[i].key, xs[i].content))
  }

  lemma EntryRead(b: Data, p: nat, x: Pair, q: nat)
    requires PairOk(x) && At(b, p, EncodeEntry(EntryOf(x.key, x.content))) && q == p + |EncodeEntry(EntryOf(x.key, x.content))|
    ensures ReadEntry(b, p) == Ok(Parsed((x.key, ValueOf(x.content)), q))
  {
    var e := EntryOf(x.key, x.content);
    var afterKey := p + 8 + |x.key|;
    var afterCode := afterKey + 4;
    Pow256Eight();
    AtSplit(b, p, EncodeString(e.key), Le(e.code, 4) + e.raw, afterKey);
    AtSplit(b, afterKey, Le(e.code, 4), e.raw, afterCode);
    StringRead(b, p, x.key, afterKey);
    NumberRead(b, afterKey, e.code, 4, afterCode);
    ContentRead(b, afterCode, x.key, x.content, q);
  }

  /** The metadata as a map; a repeated key keeps its last value. */
  function MetadataOf(xs: seq<Pair>): map<Data, Value> {
    if |xs| == 0 then map[] else MetadataOf(xs[..|xs| - 1])[xs[|xs| - 1].key := ValueOf(xs[|xs| - 1].content)]
  }

  lemma {:induction false} EntriesRead(b: Data, p: nat, xs: seq<Pair>, q: nat)
    requires (forall i :: 0 <= i < |xs| ==> PairOk(xs[i])) && At(b, p, EncodeEntries(EntriesOf(xs))) && q == p + |EncodeEntries(EntriesOf(xs))|
    ensures ReadEntries(b, p, |xs|) == Ok(Parsed(MetadataOf(xs), q))
    decreases |xs|
  {
    if |xs| > 0 {
      var n := |xs| - 1;
      var init, x := xs[..n], xs[n];
      assert EntriesOf(xs)[..n] == EntriesOf(init);
      var mid := p + |EncodeEntries(EntriesOf(init))|;
      AtSplit(b, p, EncodeEntries(EntriesOf(init)), EncodeEntry(EntryOf(x.key, x.content)), mid);
      EntriesRead(b, p, init, mid);
      EntryRead(b, mid, x, q);
    }
  }

  // ---------- tensor descriptions ----------

  lemma {:induction false} DimsRead(b: Data, p: nat, dims: seq<nat>, q: nat)
    requires (forall i :: 0 <= i < |dims| ==> dims[i] < Pow256(8)) && At(b, p, EncodeDims(dims)) && q == p + |EncodeDims(dims)|
    ensures ReadDims(b, p, |dims|) == Ok(Parsed(dims, q))
    decreases |dims|
  {
    if |dims| > 0 {
      var n := |dims| - 1;
      var mid := p + |EncodeDims(dims[..n])|;
      AtSplit(b, p, EncodeDims(dims[..n]), Le(dims[n], 8), mid);
      DimsRead(b, p, dims[..n], mid);
      NumberRead(b, mid, dims[n], 8, q);
      assert dims[..n] + [dims[n]] == dims;
    }
  }

  /** A name, dimensions and a type the format can hold. */
  predicate DescriptionOk(t: Tensor) {
    && StringOk(t.name) && |t.dims| < Pow256(4) && (forall i :: 0 <= i < |t.dims| ==> t.dims[i] < Pow256(8))
    && (t.kind <= 3 || 6 <= t.kind <= 30)
  }

  predicate TensorOk(t: Tensor) {
    DescriptionOk(t) && ByteLength(t.dims, t.kind) == Some(|t.data|)
  }

  lemma InfoRead(b: Data, p: nat, t: Tensor, offset: nat, q: nat)
    requires DescriptionOk(t) && offset < Pow256(8) && At(b, p, EncodeInfo(t, offset)) && q == p + |EncodeInfo(t, offset)|
    ensures ReadInfo(b, p) == Ok(Parsed((t.name, TensorInfo(t.dims, t.kind, offset)), q))
  {
    var p1 := p + 8 + |t.name|;
    var p2 := p1 + 4;
    var p3 := p2 + |EncodeDims(t.dims)|;
    var p4 := p3 + 4;
    Pow256Eight();
    AtSplit(b, p, EncodeString(t.name), Le(|t.dims|, 4) + (EncodeDims(t.dims) + (Le(t.kind, 4) + Le(offset, 8))), p1);
    AtSplit(b, p1, Le(|t.dims|, 4), EncodeDims(t.dims) + (Le(t.kind, 4) + Le(offset, 8)), p2);
    AtSplit(b, p2, EncodeDims(t.dims), Le(t.kind, 4) + Le(offset, 8), p3);
    AtSplit(b, p3, Le(t.kind, 4), Le(offset, 8), p4);
    StringRead(b, p, t.name, p1);
    NumberRead(b, p1, |t.dims|, 4, p2);
    DimsRead(b, p2, t.dims, p3);
    NumberRead(b, p3, t.kind, 4, p4);
    NumberRead(b, p4, offset, 8, q);
  }

  function InfosOf(ts: seq<Tensor>): map<Data, TensorInfo> {
    if |ts| == 0 then map[]
    else InfosOf(ts[..|ts| - 1])[ts[|ts| - 1].name := TensorInfo(ts[|ts| - 1].dims, ts[|ts| - 1].kind, Offset(ts[..|ts| - 1]))]
  }

  lemma {:induction false} OffsetGrows(ts: seq<Tensor>, n: nat)
    requires n <= |ts|
    ensures Offset(ts[..n]) <= Offset(ts)
  {
    if n < |ts| {
      assert ts[..|ts| - 1][..n] == ts[..n];
      OffsetGrows(ts[..|ts| - 1], n);
    } else {
      assert ts[..n] == ts;
    }
  }

  lemma {:induction false} InfosRead(b: Data, p: nat, ts: seq<Tensor>, q: nat)
    requires (forall i :: 0 <= i < |ts| ==> TensorOk(ts[i])) && Offset(ts) < Pow256(8)
    requires At(b, p, EncodeInfos(ts)) && q == p + |EncodeInfos(ts)|
    ensures ReadInfos(b, p, |ts|) == Ok(Parsed(InfosOf(ts), q))
    decreases |ts|
  {
    if |ts| > 0 {
      var n := |ts| - 1;
      var init, t := ts[..n], ts[n];
      OffsetGrows(ts, n);
      var mid := p + |EncodeInfos(init)|;
      AtSplit(b, p, EncodeInfos(init), EncodeInfo(t, Offset(init)), mid);
      InfosRead(b, p, init, mid);
      InfoRead(b, mid, t, Offset(init), q);
    }
  }

  // ---------- the header and the whole file ----------

  lemma HeaderRead(b: Data, tensors: nat, entries: nat)
    requires At(b, 0, EncodeHeader(tensors, entries)) && tensors <= MAX_TENSOR_COUNT && entries <= MAX_METADATA_COUNT
    ensures ReadHeader(b) == Ok(Parsed((VERSION, tensors, entries), 24))
  {
    Pow256Eight();
    AtSplit(b, 0, Le(MAGIC, 4), Le(VERSION, 4) + (Le(tensors, 8) + Le(entries, 8)), 4);
    AtSplit(b, 4, Le(VERSION, 4), Le(tensors, 8) + Le(entries, 8), 8);
    AtSplit(b, 8, Le(tensors, 8), Le(entries, 8), 16);
    NumberRead(b, 0, MAGIC, 4, 4);
    NumberRead(b, 4, VERSION, 4, 8);
    NumberRead(b, 8, tensors, 8, 16);
    NumberRead(b, 16, entries, 8, 24);
  }

  /** Metadata and tensors that stay within the reader's limits. */
  predicate Readable(xs: seq<Pair>, ts: seq<Tensor>) {
    && |xs| <= MAX_METADATA_COUNT && |ts| <= MAX_TENSOR_COUNT && Offset(ts) < Pow256(8)
    && (forall i :: 0 <= i < |xs| ==> PairOk(xs[i])) && (forall i :: 0 <= i < |ts| ==> TensorOk(ts[i]))
  }

  /** Bytes before the data section, unpadded. */
  function FrontLength(xs: seq<Pair>, ts: seq<Tensor>): nat {
    |EncodeFront(EntriesOf(xs), ts)|
  }

  function FileOf(xs: seq<Pair>, ts: seq<Tensor>): File {
    File(VERSION, MetadataOf(xs), InfosOf(ts), AlignUp(FrontLength(xs, ts), DeclaredAlignment(MetadataOf(xs))), EncodeFile(EntriesOf(xs), ts))
  }

  /** Where header, entries and tensor descriptions stand. */
  lemma FrontAt(es: seq<Entry>, ts: seq<Tensor>, p: nat)
    requires p == 24 + |EncodeEntries(es)|
    ensures At(EncodeFile(es, ts), 0, EncodeHeader(|ts|, |es|))
    ensures At(EncodeFile(es, ts), 24, EncodeEntries(es))
    ensures At(EncodeFile(es, ts), p, EncodeInfos(ts))
  {
    var h, e, f := EncodeHeader(|ts|, |es|), EncodeEntries(es), EncodeInfos(ts);
    var b := EncodeFile(es, ts);
    assert At(b, 0, h + (e + f));
    AtSplit(b, 0, h, e + f, 24);
    AtSplit(b, 24, e, f, p);
  }

  lemma FrontRead(xs: seq<Pair>, ts: seq<Tensor>, b: Data, p: nat, q: nat)
    requires Readable(xs, ts) && b == EncodeFile(EntriesOf(xs), ts)
    requires p == 24 + |EncodeEntries(EntriesOf(xs))| && q == p + |EncodeInfos(ts)|
    ensures ReadHeader(b) == Ok(Parsed((VERSION, |ts|, |xs|), 24))
    ensures ReadEntries(b, 24, |xs|) == Ok(Parsed(MetadataOf(xs), p))
    ensures ReadInfos(b, p, |ts|) == Ok(Parsed(InfosOf(ts), q))
  {
    FrontAt(EntriesOf(xs), ts, p);
    HeaderRead(b, |ts|, |xs|);
    EntriesRead(b, 24, xs, p);
    InfosRead(b, p, ts, q);
  }

  lemma PartsOpen(b: Data, n: nat, m: nat, metadata: map<Data, Value>, infos: map<Data, TensorInfo>, p: nat, q: nat)
    requires ReadHeader(b) == Ok(Parsed((VERSION, n, m), 24))
    requires ReadEntries(b, 24, m) == Ok(Parsed(metadata, p)) && ReadInfos(b, p, n) == Ok(Parsed(infos, q))
    ensures Opened(b) == Ok(File(VERSION, metadata, infos, AlignUp(q, DeclaredAlignment(metadata)), b))
  {
  }

  /** Opening a written file recovers its metadata and its tensor descriptions. */
  lemma FileOpens(xs: seq<Pair>, ts: seq<Tensor>)
    requires Readable(xs, ts)
    ensures Opened(EncodeFile(EntriesOf(xs), ts)) == Ok(FileOf(xs, ts))
  {
    var b := EncodeFile(EntriesOf(xs), ts);
    var p := 24 + |EncodeEntries(EntriesOf(xs))|;
    var q := p + |EncodeInfos(ts)|;
    FrontRead(xs, ts, b, p, q);
    assert FrontLength(xs, ts) == q;
    PartsOpen(b, |ts|, |xs|, MetadataOf(xs), InfosOf(ts), p, q);
  }

  // ---------- maps and lists ----------

  predicate DistinctKeys(xs: seq<Pair>) {
    forall i, j :: 0 <= i < j < |xs| ==> xs[i].key != xs[j].key
  }

  predicate DistinctNames(ts: seq<Tensor>) {
    forall i, j :: 0 <= i < j < |ts| ==> ts[i].name != ts[j].name
  }

  /** Every entry is in the metadata map. */
  lemma {:induction false} MetadataHas(xs: seq<Pair>, i: nat)
    requires DistinctKeys(xs) && i < |xs|
    ensures xs[i].key in MetadataOf(xs) && MetadataOf(xs)[xs[i].key] == ValueOf(xs[i].content)
    decreases |xs|
  {
    if i < |xs| - 1 { MetadataHas(xs[..|xs| - 1], i); }
  }

  /** Nothing else is. */
  lemma {:induction false} MetadataOnly(xs: seq<Pair>, key: Data)
    requires key in MetadataOf(xs)
    ensures exists i :: 0 <= i < |xs| && xs[i].key == key
    decreases |xs|
  {
    var n := |xs| - 1;
    if xs[n].key != key {
      MetadataOnly(xs[..n], key);
      var i :| 0 <= i < n && xs[..n][i].key == key;
      assert xs[i].key == key;
    }
  }

  lemma {:induction false} InfosHas(ts: seq<Tensor>, i: nat)
    requires DistinctNames(ts) && i < |ts|
    ensures ts[i].name in InfosOf(ts) && InfosOf(ts)[ts[i].name] == TensorInfo(ts[i].dims, ts[i].kind, Offset(ts[..i]))
    decreases |ts|
  {
    var n := |ts| - 1;
    if i < n {
      InfosHas(ts[..n], i);
      assert ts[..n][..i] == ts[..i];
    }
  }

  lemma {:induction false} InfosOnly(ts: seq<Tensor>, name: Data)
    requires name in InfosOf(ts)
    ensures exists i :: 0 <= i < |ts| && ts[i].name == name
    decreases |ts|
  {
    var n := |ts| - 1;
    if ts[n].name != name {
      InfosOnly(ts[..n], name);
      var i :| 0 <= i < n && ts[..n][i].name == name;
      assert ts[i].name == name;
    }
  }

  // ---------- the data section ----------

  lemma {:induction false} DataLength(ts: seq<Tensor>)
    ensures |EncodeData(ts)| == Offset(ts)
  {
    if |ts| > 0 { DataLength(ts[..|ts| - 1]); }
  }

  /** Each tensor's bytes stand at its recorded offset. */
  lemma {:induction false} DataAt(ts: seq<Tensor>, i: nat)
    requires i < |ts|
    ensures At(EncodeData(ts), Offset(ts[..i]), ts[i].data)
    decreases |ts|
  {
    var n := |ts| - 1;
    var init, t := ts[..n], ts[n];
    DataLength(init);
    if i < n {
      DataAt(init, i);
      assert init[..i] == ts[..i];
      AtExtend(EncodeData(init), Offset(ts[..i]), ts[i].data, Padded(t));
    } else {
      AtWhole(EncodeData(init), t.data, Padding(|t.data|));
    }
  }

  lemma AtExtend(b: Data, p: nat, e: Data, c: Data)
    requires At(b, p, e)
    ensures At(b + c, p, e)
  {
  }

  lemma AtShift(a: Data, b: Data, p: nat, e: Data, q: nat)
    requires At(b, p, e) && q == |a| + p
    ensures At(a + b, q, e)
  {
    assert (a + b)[q..q + |e|] == b[p..p + |e|];
  }

  /** Where the writer begins the data section. */
  function DataStart(xs: seq<Pair>, ts: seq<Tensor>): nat {
    AlignUp(FrontLength(xs, ts), ALIGNMENT)
  }

  lemma FileDataAt(xs: seq<Pair>, ts: seq<Tensor>, i: nat)
    requires i < |ts|
    ensures At(EncodeFile(EntriesOf(xs), ts), DataStart(xs, ts) + Offset(ts[..i]), ts[i].data)
  {
    var front, data := EncodeFront(EntriesOf(xs), ts), EncodeData(ts);
    var pad := Padding(|front|);
    DataAt(ts, i);
    var p := Offset(ts[..i]);
    AtShift(pad, data, p, ts[i].data, |pad| + p);
    AtShift(front, pad + data, |pad| + p, ts[i].data, DataStart(xs, ts) + p);
  }

  // ---------- ranges ----------

  lemma {:induction false} OffsetAligned(ts: seq<Tensor>)
    ensures Offset(ts) % 32 == 0
  {
    if |ts| > 0 {
      var n := |ts| - 1;
      OffsetAligned(ts[..n]);
      Align32Add(Offset(ts[..n]), |ts[n].data|, Offset(ts));
    }
  }

  /** The ranges of two tensors in the file: both begin at a multiple of 32, and the earlier ends before the later begins. */
  lemma RangesAlignedAndDisjoint(xs: seq<Pair>, ts: seq<Tensor>, i: nat, j: nat)
    requires i < j < |ts|
    ensures (DataStart(xs, ts) + Offset(ts[..i])) % 32 == 0 && (DataStart(xs, ts) + Offset(ts[..j])) % 32 == 0
    ensures DataStart(xs, ts) + Offset(ts[..i]) + |ts[i].data| <= DataStart(xs, ts) + Offset(ts[..j])
  {
    StartAligned(xs, ts, i);
    StartAligned(xs, ts, j);
    OffsetsApart(ts, i, j);
  }

  lemma StartAligned(xs: seq<Pair>, ts: seq<Tensor>, i: nat)
    requires i < |ts|
    ensures (DataStart(xs, ts) + Offset(ts[..i])) % 32 == 0
  {
    OffsetAligned(ts[..i]);
    Align32Add(Offset(ts[..i]), FrontLength(xs, ts), DataStart(xs, ts) + Offset(ts[..i]));
  }

  lemma OffsetsApart(ts: seq<Tensor>, i: nat, j: nat)
    requires i < j < |ts|
    ensures Offset(ts[..i]) + |ts[i].data| <= Offset(ts[..j])
  {
    var next := i + 1;
    assert ts[..j][..next] == ts[..next] && ts[..next][..i] == ts[..i];
    Align32(|ts[i].data|);
    OffsetGrows(ts[..j], next);
  }

  // ---------- tensor data ----------

  /** The reader begins the data section where the writer did. */
  predicate SameDataStart(xs: seq<Pair>, ts: seq<Tensor>) {
    AlignUp(FrontLength(xs, ts), DeclaredAlignment(MetadataOf(xs))) == DataStart(xs, ts)
  }

  /** Without a declared alignment, or with the writer's own, it always does. */
  lemma DefaultAlignment(xs: seq<Pair>, ts: seq<Tensor>)
    requires forall i :: 0 <= i < |xs| && xs[i].key == ALIGNMENT_KEY ==> xs[i].content == Uint32(ALIGNMENT) || !xs[i].content.Uint32?
    ensures SameDataStart(xs, ts)
  {
    DefaultDeclared(xs);
  }

  lemma {:induction false} DefaultDeclared(xs: seq<Pair>)
    requires forall i :: 0 <= i < |xs| && xs[i].key == ALIGNMENT_KEY ==> xs[i].content == Uint32(ALIGNMENT) || !xs[i].content.Uint32?
    ensures DeclaredAlignment(MetadataOf(xs)) == ALIGNMENT
  {
    if |xs| > 0 {
      var n := |xs| - 1;
      assert xs[..n] + [xs[n]] == xs;
      DefaultDeclared(xs[..n]);
    }
  }

  /** The written file opens, and looking the tensor up returns exactly its bytes. */
  predicate Recovered(xs: seq<Pair>, ts: seq<Tensor>, i: nat)
    requires i < |ts|
  {
    match Opened(EncodeFile(EntriesOf(xs), ts))
    case Ok(f) => TensorData(f, ts[i].name) == Ok(ts[i].data)
    case Err(_) => false
  }

  lemma DataRead(f: File, name: Data, data: Data, p: nat)
    requires name in f.tensors && ByteLength(f.tensors[name].dims, f.tensors[name].kind) == Some(|data|)
    requires p == f.dataOffset + f.tensors[name].offset && At(f.bytes, p, data) && |f.bytes| <= MAX_USIZE
    ensures TensorData(f, name) == Ok(data)
  {
  }

  lemma TensorRead(xs: seq<Pair>, ts: seq<Tensor>, i: nat)
    requires Readable(xs, ts) && DistinctNames(ts) && i < |ts|
    requires SameDataStart(xs, ts) && |EncodeFile(EntriesOf(xs), ts)| <= MAX_USIZE
    ensures TensorData(FileOf(xs, ts), ts[i].name) == Ok(ts[i].data)
  {
    InfosHas(ts, i);
    FileDataAt(xs, ts, i);
    assert TensorOk(ts[i]);
    DataRead(FileOf(xs, ts), ts[i].name, ts[i].data, DataStart(xs, ts) + Offset(ts[..i]));
  }

  /** The round trip for tensor data. */
  lemma TensorRecovered(xs: seq<Pair>, ts: seq<Tensor>, i: nat)
    requires Readable(xs, ts) && DistinctNames(ts) && i < |ts|
    requires SameDataStart(xs, ts) && |EncodeFile(EntriesOf(xs), ts)| <= MAX_USIZE
    ensures Recovered(xs, ts, i)
  {
    FileOpens(xs, ts);
    TensorRead(xs, ts, i);
  }

  // ---------- when the declared alignment is another one ----------

  predicate SameShape(t: Tensor, u: Tensor) {
    t.name == u.name && t.dims == u.dims && t.kind == u.kind && |t.data| == |u.data|
  }

  /** Tensor lists that differ in data only. */
  predicate SameShapes(ts: seq<Tensor>, us: seq<Tensor>) {
    |ts| == |us| && forall i :: 0 <= i < |ts| ==> SameShape(ts[i], us[i])
  }

  lemma {:induction false} ShapesFixOffsets(ts: seq<Tensor>, us: seq<Tensor>)
    requires SameShapes(ts, us)
    ensures Offset(ts) == Offset(us) && EncodeInfos(ts) == EncodeInfos(us)
    decreases |ts|
  {
    if |ts| > 0 {
      var n := |ts| - 1;
      assert SameShape(ts[n], us[n]);
      ShapesFixOffsets(ts[..n], us[..n]);
    }
  }

  lemma ShapesFixFile(xs: seq<Pair>, ts: seq<Tensor>, us: seq<Tensor>)
    requires SameShapes(ts, us)
    ensures EncodeFront(EntriesOf(xs), ts) == EncodeFront(EntriesOf(xs), us)
    ensures |EncodeFile(EntriesOf(xs), ts)| == |EncodeFile(EntriesOf(xs), us)|
  {
    ShapesFixOffsets(ts, us);
    DataLength(ts);
    DataLength(us);
  }

  lemma ShapesFixReadable(xs: seq<Pair>, ts: seq<Tensor>, us: seq<Tensor>)
    requires SameShapes(ts, us) && Readable(xs, ts) && DistinctNames(ts)
    ensures Readable(xs, us) && DistinctNames(us)
  {
    ShapesFixOffsets(ts, us);
    forall i | 0 <= i < |us| ensures TensorOk(us[i]) {
      assert SameShape(ts[i], us[i]) && TensorOk(ts[i]);
    }
    forall i, j | 0 <= i < j < |us| ensures us[i].name != us[j].name {
      assert SameShape(ts[i], us[i]) && SameShape(ts[j], us[j]);
    }
  }

  /** Two tensors of one shape that differ in their first byte at most. */
  predicate FirstByteApart(t: Tensor, u: Tensor) {
    SameShape(t, u) && |t.data| > 0 && t.data[1..] == u.data[1..]
  }

  /** Lists that differ in the first byte of tensor i at most. */
  predicate ApartAt(ts: seq<Tensor>, us: seq<Tensor>, i: nat) {
    && SameShapes(ts, us) && i < |ts| && FirstByteApart(ts[i], us[i])
    && forall j :: 0 <= j < |ts| && j != i ==> ts[j] == us[j]
  }

  lemma ApartShorter(ts: seq<Tensor>, us: seq<Tensor>, i: nat, n: nat)
    requires ApartAt(ts, us, i) && n < |ts|
    ensures if i < n then ApartAt(ts[..n], us[..n], i) else i == n ==> ts[..n] == us[..n]
  {
  }

  /** Then the data sections differ at that byte's place at most. */
  lemma {:induction false} OneByteApart(ts: seq<Tensor>, us: seq<Tensor>, i: nat, k: nat)
    requires ApartAt(ts, us, i)
    requires k < |EncodeData(ts)| && k < |EncodeData(us)| && k != Offset(ts[..i])
    ensures EncodeData(ts)[k] == EncodeData(us)[k]
    decreases |ts|
  {
    var n := |ts| - 1;
    var init, jnit := ts[..n], us[..n];
    ApartShorter(ts, us, i, n);
    if i < n {
      assert init[..i] == ts[..i];
      ShapesFixOffsets(init, jnit);
      DataLength(init);
      DataLength(jnit);
      if k < |EncodeData(init)| {
        OneByteApart(init, jnit, i, k);
      }
      SameTail(EncodeData(init), EncodeData(jnit), Padded(ts[n]), k);
    } else {
      LastOneByteApart(ts, us, n, k);
    }
  }

  lemma LastOneByteApart(ts: seq<Tensor>, us: seq<Tensor>, n: nat, k: nat)
    requires n + 1 == |ts| == |us| && ts[..n] == us[..n] && FirstByteApart(ts[n], us[n])
    requires k < |EncodeData(ts)| && k != Offset(ts[..n])
    ensures EncodeData(ts)[k] == EncodeData(us)[k]
  {
    DataLength(ts[..n]);
    OtherFirst(EncodeData(ts[..n]), ts[n].data, us[n].data, Padding(|ts[n].data|), k);
  }

  lemma SameTail(a: Data, b: Data, c: Data, k: nat)
    requires |a| == |b| && k < |a + c| && (k < |a| ==> a[k] == b[k])
    ensures (a + c)[k] == (b + c)[k]
  {
  }

  lemma OtherFirst(a: Data, d: Data, e: Data, pad: Data, k: nat)
    requires |d| == |e| > 0 && d[1..] == e[1..] && k < |a + (d + pad)| && k != |a|
    ensures (a + (d + pad))[k] == (a + (e + pad))[k]
  {
    assert d == [d[0]] + d[1..] && e == [e[0]] + e[1..];
  }

  /** The first data byte the reader returns for tensor i, with its data section at start. */
  lemma FirstByteRead(xs: seq<Pair>, ts: seq<Tensor>, i: nat, at: nat)
    requires Readable(xs, ts) && DistinctNames(ts) && i < |ts| && |ts[i].data| > 0 && Recovered(xs, ts, i)
    requires at == AlignUp(FrontLength(xs, ts), DeclaredAlignment(MetadataOf(xs))) + Offset(ts[..i])
    ensures at < |EncodeFile(EntriesOf(xs), ts)| && EncodeFile(EntriesOf(xs), ts)[at] == ts[i].data[0]
  {
    FileOpens(xs, ts);
    InfosHas(ts, i);
    FirstByte(FileOf(xs, ts), ts[i].name, ts[i].data, at);
  }

  lemma FirstByte(f: File, name: Data, data: Data, at: nat)
    requires TensorData(f, name) == Ok(data) && |data| > 0
    requires name in f.tensors && at == f.dataOffset + f.tensors[name].offset
    ensures at < |f.bytes| && f.bytes[at] == data[0]
  {
    assert data == f.bytes[at..at + |data|];
  }

  lemma FileOneByteApart(xs: seq<Pair>, ts: seq<Tensor>, us: seq<Tensor>, i: nat, k: nat)
    requires ApartAt(ts, us, i)
    requires k < |EncodeFile(EntriesOf(xs), ts)| && k < |EncodeFile(EntriesOf(xs), us)|
    requires k != DataStart(xs, ts) + Offset(ts[..i])
    ensures EncodeFile(EntriesOf(xs), ts)[k] == EncodeFile(EntriesOf(xs), us)[k]
  {
    ShapesFixFile(xs, ts, us);
    var start := DataStart(xs, ts);
    if k >= start {
      OneByteApart(ts, us, i, k - start);
    }
  }

  /** Some data of the given shapes is lost when the two disagree about the data section's start. */
  lemma OtherStartLosesData(xs: seq<Pair>, ts: seq<Tensor>, i: nat) returns (us: seq<Tensor>)
    requires Readable(xs, ts) && DistinctNames(ts) && i < |ts| && |ts[i].data| > 0 && !SameDataStart(xs, ts)
    ensures SameShapes(ts, us) && !Recovered(xs, us, i)
  {
    us := WithFirst(ts, i, 0);
    var vs := WithFirst(ts, i, 1);
    if Recovered(xs, us, i) {
      if Recovered(xs, vs, i) {
        ApartTwice(ts, us, vs, i);
        BothRecovered(xs, ts, us, vs, i);
      }
      us := vs;
    }
  }

  /** The list with another first byte of data in tensor i. */
  function WithFirst(ts: seq<Tensor>, i: nat, x: byte): (us: seq<Tensor>)
    requires i < |ts| && |ts[i].data| > 0
    ensures ApartAt(ts, us, i) && us[i].data[0] == x
  {
    ts[i := ts[i].(data := [x] + ts[i].data[1..])]
  }

  lemma ApartTwice(ts: seq<Tensor>, us: seq<Tensor>, vs: seq<Tensor>, i: nat)
    requires ApartAt(ts, us, i) && ApartAt(ts, vs, i)
    ensures ApartAt(us, vs, i)
  {
    forall j | 0 <= j < |us| ensures SameShape(us[j], vs[j]) {
      assert SameShape(ts[j], us[j]) && SameShape(ts[j], vs[j]);
    }
  }

  lemma BothRecovered(xs: seq<Pair>, ts: seq<Tensor>, us: seq<Tensor>, vs: seq<Tensor>, i: nat)
    requires Readable(xs, ts) && DistinctNames(ts) && i < |ts| && SameShapes(ts, us) && SameShapes(ts, vs)
    requires ApartAt(us, vs, i) && us[i].data[0] != vs[i].data[0]
    requires Recovered(xs, us, i) && Recovered(xs, vs, i)
    ensures SameDataStart(xs, ts)
  {
    var at := AlignUp(FrontLength(xs, ts), DeclaredAlignment(MetadataOf(xs))) + Offset(ts[..i]);
    ShapedFirstByteRead(xs, ts, us, i, at);
    ShapedFirstByteRead(xs, ts, vs, i, at);
    ShapesFixStart(xs, ts, us, i);
    if at != DataStart(xs, us) + Offset(us[..i]) {
      FileOneByteApart(xs, us, vs, i, at);
    }
  }

  lemma ShapesFixStart(xs: seq<Pair>, ts: seq<Tensor>, us: seq<Tensor>, i: nat)
    requires SameShapes(ts, us) && i <= |ts|
    ensures Offset(ts[..i]) == Offset(us[..i]) && FrontLength(xs, ts) == FrontLength(xs, us)
  {
    ShapesFixFile(xs, ts, us);
    assert SameShapes(ts[..i], us[..i]);
    ShapesFixOffsets(ts[..i], us[..i]);
  }

  lemma ShapedFirstByteRead(xs: seq<Pair>, ts: seq<Tensor>, us: seq<Tensor>, i: nat, at: nat)
    requires Readable(xs, ts) && DistinctNames(ts) && i < |ts| && SameShapes(ts, us) && |us[i].data| > 0
    requires Recovered(xs, us, i)
    requires at == AlignUp(FrontLength(xs, ts), DeclaredAlignment(MetadataOf(xs))) + Offset(ts[..i])
    ensures at < |EncodeFile(EntriesOf(xs), us)| && EncodeFile(EntriesOf(xs), us)[at] == us[i].data[0]
  {
    ShapesFixReadable(xs, ts, us);
    ShapesFixStart(xs, ts, us, i);
    FirstByteRead(xs, us, i, at);
  }

  /**
   * The exact condition. Given metadata and tensor shapes, one of them not empty, every data of those shapes is
   * recovered if and only if the declared alignment rounds the front to the place the writer's 32 does.
   */
  lemma AlignmentDecides(xs: seq<Pair>, ts: seq<Tensor>, i: nat)
    requires Readable(xs, ts) && DistinctNames(ts) && i < |ts| && |ts[i].data| > 0
    requires |EncodeFile(EntriesOf(xs), ts)| <= MAX_USIZE
    ensures (forall us, j | SameShapes(ts, us) && 0 <= j < |us| :: Recovered(xs, us, j)) <==> SameDataStart(xs, ts)
  {
    if SameDataStart(xs, ts) {
      forall us, j | SameShapes(ts, us) && 0 <= j < |us| ensures Recovered(xs, us, j) {
        ShapesFixReadable(xs, ts, us);
        ShapesFixFile(xs, ts, us);
        TensorRecovered(xs, us, j);
      }
    } else {
      var us := OtherStartLosesData(xs, ts, i);
    }
  }

  /** A case where they differ: alignment 64 declared, a front of 90 bytes; the writer goes on at 96, the reader at 128. */
  lemma Alignment64(t: Tensor)
    requires |t.name| == 1 && |t.dims| == 1
    ensures DataStart([Pair(ALIGNMENT_KEY, Uint32(64))], [t]) == 96
    ensures !SameDataStart([Pair(ALIGNMENT_KEY, Uint32(64))], [t])
  {
    var xs, ts := [Pair(ALIGNMENT_KEY, Uint32(64))], [t];
    OneEntry(EntriesOf(xs));
    OneInfo(ts);
    NinetyAligned(FrontLength(xs, ts));
    Declares(xs, 64);
  }

  lemma NinetyAligned(n: nat)
    requires n == 90
    ensures AlignUp(n, 32) == 96 && AlignUp(n, 64) == 128
  {
  }

  lemma Declares(xs: seq<Pair>, a: nat)
    requires |xs| == 1 && xs[0] == Pair(ALIGNMENT_KEY, Uint32(a))
    ensures DeclaredAlignment(MetadataOf(xs)) == a
  {
    assert MetadataOf(xs)[ALIGNMENT_KEY] == Number(4, a);
  }

  lemma OneEntry(es: seq<Entry>)
    requires |es| == 1
    ensures |EncodeEntries(es)| == 12 + |es[0].key| + |es[0].raw|
  {
    var none := es[..|es| - 1];
    assert |EncodeEntries(none)| == 0;
  }

  lemma OneInfo(ts: seq<Tensor>)
    requires |ts| == 1 && |ts[0].dims| == 1
    ensures |EncodeInfos(ts)| == 32 + |ts[0].name|
  {
    var none := ts[..|ts| - 1];
    assert |EncodeInfos(none)| == 0;
    OneDim(ts[0].dims);
  }

  lemma OneDim(dims: seq<nat>)
    requires |dims| == 1
    ensures |EncodeDims(dims)| == 8
  {
    assert |EncodeDims(dims[..|dims| - 1])| == 0;
  }
}
