/** The language of the reader: which bytes it opens, and as what. */
module GgufLanguage {
  import opened Common
  import opened Bytes
  import opened GgufReader
  import opened GgufRoundTrip
  import opened GgufBytes
  import GgufWriter

  // ---------- numbers and strings ----------

  lemma {:induction false} LeOfNumber(d: Data)
    ensures FromLe(d) < Pow256(|d|) && Le(FromLe(d), |d|) == d
  {
    if |d| > 0 {
      LeOfNumber(d[1..]);
      LowestFirst(d[0], FromLe(d[1..]), |d| - 1);
    }
  }

  lemma NumberIs(b: Data, p: nat, k: nat, n: nat, q: nat)
    requires ReadNumber(b, p, k) == Ok(Parsed(n, q))
    ensures n < Pow256(k) && At(b, p, Le(n, k)) && q == p + k
  {
    LeOfNumber(b[p..q]);
  }

  lemma Join(b: Data, p: nat, e: Data, f: Data, q: nat)
    requires At(b, p, e) && At(b, q, f) && q == p + |e|
    ensures At(b, p, e + f)
  {
    assert b[p..q + |f|] == b[p..q] + b[q..q + |f|];
  }

  lemma Join3(b: Data, p: nat, d: Data, e: Data, f: Data, q: nat, r: nat)
    requires At(b, p, d) && At(b, q, e) && At(b, r, f) && q == p + |d| && r == q + |e|
    ensures At(b, p, d + (e + f))
  {
    Join(b, q, e, f, r);
    Join(b, p, d, e + f, q);
  }

  lemma StringIs(b: Data, p: nat, s: Data, q: nat)
    requires ReadString(b, p) == Ok(Parsed(s, q))
    ensures StringOk(s) && At(b, p, GgufWriter.EncodeString(s)) && q == p + 8 + |s|
  {
    var start := p + 8;
    NumberIs(b, p, 8, FromLe(b[p..start]), start);
    Join(b, p, Le(|s|, 8), s, start);
  }

  // ---------- values ----------

  /** The value x stands in b from p up to q. */
  predicate Stands(b: Data, p: nat, x: Item, q: nat) {
    ItemOk(x) && At(b, p, EncodeItem(x)) && q == p + |EncodeItem(x)|
  }

  /** Values of type `code` stand in b from p up to q. */
  predicate StandAll(b: Data, p: nat, code: nat, xs: seq<Item>, q: nat) {
    && (forall i :: 0 <= i < |xs| ==> CodeOf(xs[i]) == code && ItemOk(xs[i]))
    && At(b, p, EncodeItems(xs)) && q == p + |EncodeItems(xs)|
  }

  lemma {:induction false} ItemIs(b: Data, p: nat, code: nat, v: Value, q: nat) returns (x: Item)
    requires ReadValue(b, p, code) == Ok(Parsed(v, q))
    ensures Stands(b, p, x, q) && CodeOf(x) == code && ReadBack(x) == v
    decreases |b| - p, 1, 0
  {
    match v
    case Number(_, bits) =>
      x := Num(code, bits);
      NumberIs(b, p, BytesOf(code), bits, q);
    case Bool(_) =>
      x := Flag(b[p]);
      FlagRead(b, p);
    case Text(s) =>
      x := Str(s);
      StringIs(b, p, s, q);
    case Array(items) => x := ListIs(b, p, items, q);
  }

  lemma {:induction false} ListIs(b: Data, p: nat, items: seq<Value>, q: nat) returns (x: Item)
    requires ReadValue(b, p, 9) == Ok(Parsed(Array(items), q))
    ensures Stands(b, p, x, q) && CodeOf(x) == 9 && ReadBack(x) == Array(items)
    decreases |b| - p, 0, 0
  {
    var mid, start := p + 4, p + 12;
    var elem, n := FromLe(b[p..mid]), FromLe(b[mid..start]);
    NumberIs(b, p, 4, elem, mid);
    NumberIs(b, mid, 8, n, start);
    var xs := ItemsAre(b, start, elem, n, items, q);
    Join(b, mid, Le(n, 8), EncodeItems(xs), start);
    Join(b, p, Le(elem, 4), Le(n, 8) + EncodeItems(xs), mid);
    x := List(elem, xs);
  }

  lemma {:induction false} ItemsAre(b: Data, p: nat, code: nat, n: nat, vs: seq<Value>, q: nat) returns (xs: seq<Item>)
    requires p <= |b| && ReadItems(b, p, code, n) == Ok(Parsed(vs, q))
    ensures |xs| == n && StandAll(b, p, code, xs, q) && AllReadBack(xs) == vs
    decreases |b| - p, 2, n
  {
    xs := [];
    if n > 0 {
      var head := ReadValue(b, p, code).value;
      var x := ItemIs(b, p, code, head.value, head.next);
      var rest := ItemsAre(b, head.next, code, n - 1, vs[1..], q);
      Join(b, p, EncodeItem(x), EncodeItems(rest), head.next);
      xs := [x] + rest;
      assert xs[1..] == rest;
    }
  }

  /** A value is read exactly where one of its type stands, up to its end. */
  lemma ValueReadIff(b: Data, p: nat, code: nat, v: Value, q: nat)
    ensures ReadValue(b, p, code) == Ok(Parsed(v, q)) <==> exists x :: Stands(b, p, x, q) && CodeOf(x) == code && ReadBack(x) == v
  {
    if ReadValue(b, p, code) == Ok(Parsed(v, q)) {
      var x := ItemIs(b, p, code, v, q);
    }
    if x :| Stands(b, p, x, q) && CodeOf(x) == code && ReadBack(x) == v { ItemRead(b, p, x, q); }
  }

  // ---------- metadata ----------

  datatype Named = Named(key: Data, item: Item)

  predicate NamedOk(x: Named) {
    StringOk(x.key) && ItemOk(x.item)
  }

  function EntryFor(x: Named): GgufWriter.Entry {
    GgufWriter.Entry(x.key, CodeOf(x.item), EncodeItem(x.item))
  }

  function NamedBytes(xs: seq<Named>): Data {
    if |xs| == 0 then [] else NamedBytes(xs[..|xs| - 1]) + GgufWriter.EncodeEntry(EntryFor(xs[|xs| - 1]))
  }

  /** A repeated key keeps its last value. */
  function NamedValues(xs: seq<Named>): map<Data, Value> {
    if |xs| == 0 then map[] else NamedValues(xs[..|xs| - 1])[xs[|xs| - 1].key := ReadBack(xs[|xs| - 1].item)]
  }

  predicate AllNamedOk(xs: seq<Named>) {
    forall i :: 0 <= i < |xs| ==> NamedOk(xs[i])
  }

  predicate NamedStands(b: Data, p: nat, x: Named, q: nat) {
    NamedOk(x) && At(b, p, GgufWriter.EncodeEntry(EntryFor(x))) && q == p + |GgufWriter.EncodeEntry(EntryFor(x))|
  }

  lemma NamedRead(b: Data, p: nat, x: Named, q: nat)
    requires NamedStands(b, p, x, q)
    ensures ReadEntry(b, p) == Ok(Parsed((x.key, ReadBack(x.item)), q))
  {
    var e := EntryFor(x);
    var afterKey := p + 8 + |x.key|;
    var afterCode := afterKey + 4;
    Pow256Eight();
    CodeFits(x.item);
    AtSplit(b, p, GgufWriter.EncodeString(e.key), Le(e.code, 4) + e.raw, afterKey);
    AtSplit(b, afterKey, Le(e.code, 4), e.raw, afterCode);
    StringRead(b, p, x.key, afterKey);
    NumberRead(b, afterKey, e.code, 4, afterCode);
    ItemRead(b, afterCode, x.item, q);
  }

  lemma CodeFits(x: Item)
    requires ItemOk(x)
    ensures CodeOf(x) <= 12
  {
  }

  lemma NamedIs(b: Data, p: nat, key: Data, v: Value, q: nat) returns (x: Named)
    requires ReadEntry(b, p) == Ok(Parsed((key, v), q))
    ensures NamedStands(b, p, x, q) && x.key == key && ReadBack(x.item) == v
  {
    var afterKey := ReadString(b, p).value.next;
    var afterCode := ReadNumber(b, afterKey, 4).value.next;
    var code := ReadNumber(b, afterKey, 4).value.value;
    StringIs(b, p, key, afterKey);
    NumberIs(b, afterKey, 4, code, afterCode);
    var item := ItemIs(b, afterCode, code, v, q);
    x := NamedFrom(b, p, key, code, item, afterKey, afterCode, q);
  }

  lemma NamedFrom(b: Data, p: nat, key: Data, code: nat, item: Item, afterKey: nat, afterCode: nat, q: nat) returns (x: Named)
    requires StringOk(key) && At(b, p, GgufWriter.EncodeString(key)) && afterKey == p + |GgufWriter.EncodeString(key)|
    requires At(b, afterKey, Le(code, 4)) && afterCode == afterKey + 4
    requires Stands(b, afterCode, item, q) && CodeOf(item) == code
    ensures x == Named(key, item) && NamedStands(b, p, x, q)
  {
    Join3(b, p, GgufWriter.EncodeString(key), Le(code, 4), EncodeItem(item), afterKey, afterCode);
    x := Named(key, item);
  }

  predicate AllNamedStand(b: Data, p: nat, xs: seq<Named>, q: nat) {
    AllNamedOk(xs) && At(b, p, NamedBytes(xs)) && q == p + |NamedBytes(xs)|
  }

  lemma {:induction false} NamedAllRead(b: Data, p: nat, xs: seq<Named>, q: nat)
    requires AllNamedStand(b, p, xs, q)
    ensures ReadEntries(b, p, |xs|) == Ok(Parsed(NamedValues(xs), q))
    decreases |xs|
  {
    if |xs| > 0 {
      var init, x := xs[..|xs| - 1], xs[|xs| - 1];
      var mid := p + |NamedBytes(init)|;
      AtSplit(b, p, NamedBytes(init), GgufWriter.EncodeEntry(EntryFor(x)), mid);
      NamedAllRead(b, p, init, mid);
      NamedRead(b, mid, x, q);
    }
  }

  lemma {:induction false} NamedAre(b: Data, p: nat, n: nat, m: map<Data, Value>, q: nat) returns (xs: seq<Named>)
    requires p <= |b| && ReadEntries(b, p, n) == Ok(Parsed(m, q))
    ensures |xs| == n && AllNamedStand(b, p, xs, q) && NamedValues(xs) == m
    decreases n
  {
    xs := [];
    if n > 0 {
      var last := n - 1;
      var front, entry := EntryParts(b, p, n, last, m, q);
      var init := NamedAre(b, p, last, front.value, front.next);
      var x := NamedIs(b, front.next, entry.0, entry.1, q);
      xs := NamedMore(b, p, init, x, front.next, q);
    }
  }

  lemma EntryParts(b: Data, p: nat, n: nat, last: nat, m: map<Data, Value>, q: nat) returns (front: Parsed<map<Data, Value>>, entry: (Data, Value))
    requires n == last + 1 && ReadEntries(b, p, n) == Ok(Parsed(m, q))
    ensures ReadEntries(b, p, last) == Ok(front) && ReadEntry(b, front.next) == Ok(Parsed(entry, q)) && m == front.value[entry.0 := entry.1]
  {
    front := ReadEntries(b, p, last).value;
    entry := ReadEntry(b, front.next).value.value;
  }

  lemma NamedMore(b: Data, p: nat, init: seq<Named>, x: Named, mid: nat, q: nat) returns (xs: seq<Named>)
    requires AllNamedStand(b, p, init, mid) && NamedStands(b, mid, x, q)
    ensures |xs| == |init| + 1 && AllNamedStand(b, p, xs, q) && NamedValues(xs) == NamedValues(init)[x.key := ReadBack(x.item)]
  {
    Join(b, p, NamedBytes(init), GgufWriter.EncodeEntry(EntryFor(x)), mid);
    xs := init + [x];
    assert xs[..|init|] == init;
  }

  // ---------- tensor descriptions ----------

  datatype Described = Described(name: Data, info: TensorInfo)

  function TensorFor(x: Described): GgufWriter.Tensor {
    GgufWriter.Tensor(x.name, x.info.dims, x.info.kind, [])
  }

  predicate DescribedOk(x: Described) {
    DescriptionOk(TensorFor(x)) && x.info.offset < Pow256(8)
  }

  function DescribedBytes(xs: seq<Described>): Data {
    if |xs| == 0 then []
    else DescribedBytes(xs[..|xs| - 1]) + GgufWriter.EncodeInfo(TensorFor(xs[|xs| - 1]), xs[|xs| - 1].info.offset)
  }

  /** A repeated name keeps its last description. */
  function Descriptions(xs: seq<Described>): map<Data, TensorInfo> {
    if |xs| == 0 then map[] else Descriptions(xs[..|xs| - 1])[xs[|xs| - 1].name := xs[|xs| - 1].info]
  }

  predicate AllDescribedOk(xs: seq<Described>) {
    forall i :: 0 <= i < |xs| ==> DescribedOk(xs[i])
  }

  predicate DimsStand(b: Data, p: nat, dims: seq<nat>, q: nat) {
    (forall i :: 0 <= i < |dims| ==> dims[i] < Pow256(8)) && At(b, p, GgufWriter.EncodeDims(dims)) && q == p + |GgufWriter.EncodeDims(dims)|
  }

  lemma {:induction false} DimsAre(b: Data, p: nat, n: nat, dims: seq<nat>, q: nat)
    requires p <= |b| && ReadDims(b, p, n) == Ok(Parsed(dims, q))
    ensures |dims| == n && DimsStand(b, p, dims, q)
    decreases n
  {
    if n > 0 {
      var front := ReadDims(b, p, n - 1).value;
      DimsAre(b, p, n - 1, front.value, front.next);
      var d := dims[n - 1];
      NumberIs(b, front.next, 8, d, q);
      Join(b, p, GgufWriter.EncodeDims(front.value), Le(d, 8), front.next);
      assert dims[..n - 1] == front.value;
    }
  }

  predicate DescribedStands(b: Data, p: nat, x: Described, q: nat) {
    && DescribedOk(x) && At(b, p, GgufWriter.EncodeInfo(TensorFor(x), x.info.offset))
    && q == p + |GgufWriter.EncodeInfo(TensorFor(x), x.info.offset)|
  }

  lemma DescribedIs(b: Data, p: nat, name: Data, info: TensorInfo, q: nat)
    requires ReadInfo(b, p) == Ok(Parsed((name, info), q))
    ensures DescribedStands(b, p, Described(name, info), q)
  {
    var n, p1, p2, p3, p4 := InfoSteps(b, p, name, info, q);
    StringIs(b, p, name, p1);
    NumberIs(b, p1, 4, n, p2);
    DimsAre(b, p2, n, info.dims, p3);
    NumberIs(b, p3, 4, info.kind, p4);
    NumberIs(b, p4, 8, info.offset, q);
    DescribedFrom(b, p, name, info, p1, p2, p3, p4, q);
  }

  lemma InfoSteps(b: Data, p: nat, name: Data, info: TensorInfo, q: nat) returns (n: nat, p1: nat, p2: nat, p3: nat, p4: nat)
    requires ReadInfo(b, p) == Ok(Parsed((name, info), q))
    ensures ReadString(b, p) == Ok(Parsed(name, p1)) && ReadNumber(b, p1, 4) == Ok(Parsed(n, p2)) && ReadDims(b, p2, n) == Ok(Parsed(info.dims, p3))
    ensures ReadNumber(b, p3, 4) == Ok(Parsed(info.kind, p4)) && ReadNumber(b, p4, 8) == Ok(Parsed(info.offset, q))
    ensures info.kind <= 3 || 6 <= info.kind <= 30
  {
    p1 := ReadString(b, p).value.next;
    var count := ReadNumber(b, p1, 4).value;
    n, p2 := count.value, count.next;
    p3 := ReadDims(b, p2, n).value.next;
    p4 := ReadNumber(b, p3, 4).value.next;
  }

  lemma DescribedFrom(b: Data, p: nat, name: Data, info: TensorInfo, p1: nat, p2: nat, p3: nat, p4: nat, q: nat)
    requires StringOk(name) && At(b, p, GgufWriter.EncodeString(name)) && p1 == p + 8 + |name|
    requires |info.dims| < Pow256(4) && At(b, p1, Le(|info.dims|, 4)) && p2 == p1 + 4
    requires DimsStand(b, p2, info.dims, p3)
    requires (info.kind <= 3 || 6 <= info.kind <= 30) && At(b, p3, Le(info.kind, 4)) && p4 == p3 + 4
    requires info.offset < Pow256(8) && At(b, p4, Le(info.offset, 8)) && q == p4 + 8
    ensures DescribedStands(b, p, Described(name, info), q)
  {
    var tail := Le(info.kind, 4) + Le(info.offset, 8);
    Join3(b, p2, GgufWriter.EncodeDims(info.dims), Le(info.kind, 4), Le(info.offset, 8), p3, p4);
    Join3(b, p, GgufWriter.EncodeString(name), Le(|info.dims|, 4), GgufWriter.EncodeDims(info.dims) + tail, p1, p2);
  }

  predicate AllDescribedStand(b: Data, p: nat, xs: seq<Described>, q: nat) {
    AllDescribedOk(xs) && At(b, p, DescribedBytes(xs)) && q == p + |DescribedBytes(xs)|
  }

  lemma {:induction false} DescribedAllRead(b: Data, p: nat, xs: seq<Described>, q: nat)
    requires AllDescribedStand(b, p, xs, q)
    ensures ReadInfos(b, p, |xs|) == Ok(Parsed(Descriptions(xs), q))
    decreases |xs|
  {
    if |xs| > 0 {
      var init, x := xs[..|xs| - 1], xs[|xs| - 1];
      var mid := p + |DescribedBytes(init)|;
      AtSplit(b, p, DescribedBytes(init), GgufWriter.EncodeInfo(TensorFor(x), x.info.offset), mid);
      DescribedAllRead(b, p, init, mid);
      InfoRead(b, mid, TensorFor(x), x.info.offset, q);
    }
  }

  lemma {:induction false} DescribedAre(b: Data, p: nat, n: nat, m: map<Data, TensorInfo>, q: nat) returns (xs: seq<Described>)
    requires p <= |b| && ReadInfos(b, p, n) == Ok(Parsed(m, q))
    ensures |xs| == n && AllDescribedStand(b, p, xs, q) && Descriptions(xs) == m
    decreases n
  {
    xs := [];
    if n > 0 {
      var last := n - 1;
      var front, x := InfoParts(b, p, n, last, m, q);
      var init := DescribedAre(b, p, last, front.value, front.next);
      DescribedIs(b, front.next, x.name, x.info, q);
      xs := DescribedMore(b, p, init, x, front.next, q);
    }
  }

  lemma InfoParts(b: Data, p: nat, n: nat, last: nat, m: map<Data, TensorInfo>, q: nat) returns (front: Parsed<map<Data, TensorInfo>>, x: Described)
    requires n == last + 1 && ReadInfos(b, p, n) == Ok(Parsed(m, q))
    ensures ReadInfos(b, p, last) == Ok(front) && ReadInfo(b, front.next) == Ok(Parsed((x.name, x.info), q)) && m == front.value[x.name := x.info]
  {
    front := ReadInfos(b, p, last).value;
    var read := ReadInfo(b, front.next).value.value;
    x := Described(read.0, read.1);
  }

  lemma DescribedMore(b: Data, p: nat, init: seq<Described>, x: Described, mid: nat, q: nat) returns (xs: seq<Described>)
    requires AllDescribedStand(b, p, init, mid) && DescribedStands(b, mid, x, q)
    ensures |xs| == |init| + 1 && AllDescribedStand(b, p, xs, q) && Descriptions(xs) == Descriptions(init)[x.name := x.info]
  {
    Join(b, p, DescribedBytes(init), GgufWriter.EncodeInfo(TensorFor(x), x.info.offset), mid);
    xs := init + [x];
    assert xs[..|init|] == init;
  }

  // ---------- the header ----------

  /** "GGUF", the version and the two counts. */
  function HeaderBytes(version: nat, tensors: nat, entries: nat): (d: Data)
    ensures |d| == 24
  {
    [0x47, 0x47, 0x55, 0x46] + (Le(version, 4) + (Le(tensors, 8) + Le(entries, 8)))
  }

  predicate HeaderOk(version: nat, tensors: nat, entries: nat) {
    (version == 2 || version == 3) && tensors <= 50_000 && entries <= 100_000
  }

  lemma MagicBytes()
    ensures Le(MAGIC, 4) == [0x47, 0x47, 0x55, 0x46]
  {
    FourDigits(MAGIC, 0x47, 0x47, 0x55, 0x46);
  }

  lemma HeaderIs(b: Data, version: nat, tensors: nat, entries: nat, q: nat)
    requires ReadHeader(b) == Ok(Parsed((version, tensors, entries), q))
    ensures HeaderOk(version, tensors, entries) && At(b, 0, HeaderBytes(version, tensors, entries)) && q == 24
  {
    MagicBytes();
    NumberIs(b, 0, 4, MAGIC, 4);
    NumberIs(b, 4, 4, version, 8);
    NumberIs(b, 8, 8, tensors, 16);
    NumberIs(b, 16, 8, entries, 24);
    Join(b, 8, Le(tensors, 8), Le(entries, 8), 16);
    Join(b, 4, Le(version, 4), Le(tensors, 8) + Le(entries, 8), 8);
    Join(b, 0, Le(MAGIC, 4), Le(version, 4) + (Le(tensors, 8) + Le(entries, 8)), 4);
  }

  lemma HeaderStands(b: Data, version: nat, tensors: nat, entries: nat)
    requires HeaderOk(version, tensors, entries) && At(b, 0, HeaderBytes(version, tensors, entries))
    ensures ReadHeader(b) == Ok(Parsed((version, tensors, entries), 24))
  {
    MagicBytes();
    Pow256Eight();
    AtSplit(b, 0, Le(MAGIC, 4), Le(version, 4) + (Le(tensors, 8) + Le(entries, 8)), 4);
    AtSplit(b, 4, Le(version, 4), Le(tensors, 8) + Le(entries, 8), 8);
    AtSplit(b, 8, Le(tensors, 8), Le(entries, 8), 16);
    NumberRead(b, 0, MAGIC, 4, 4);
    NumberRead(b, 4, version, 4, 8);
    NumberRead(b, 8, tensors, 8, 16);
    NumberRead(b, 16, entries, 8, 24);
  }

  /** What is refused by the header alone, in this order: too few bytes, another magic number, another version. */
  lemma HeaderRefused(b: Data)
    ensures |b| < 16 ==> Opened(b) == Err(Malformed)
    ensures |b| >= 16 && b[..4] != [0x47, 0x47, 0x55, 0x46] ==> Opened(b) == Err(InvalidMagic(FromLe(b[..4])))
    ensures |b| >= 16 && b[..4] == [0x47, 0x47, 0x55, 0x46] && FromLe(b[4..8]) !in {2, 3} ==> Opened(b) == Err(UnsupportedVersion(FromLe(b[4..8])))
  {
    MagicBytes();
    Pow256Eight();
    LeRoundTrip(MAGIC, 4);
    if |b| >= 16 {
      LeOfNumber(b[0..4]);
      assert b[0..4] == b[..4];
    }
  }

  // ---------- the whole file ----------

  /** What stands before the data section. */
  datatype Front = Front(version: nat, entries: seq<Named>, tensors: seq<Described>)

  predicate FrontOk(f: Front) {
    HeaderOk(f.version, |f.tensors|, |f.entries|) && AllNamedOk(f.entries) && AllDescribedOk(f.tensors)
  }

  function FrontBytes(f: Front): Data {
    HeaderBytes(f.version, |f.tensors|, |f.entries|) + (NamedBytes(f.entries) + DescribedBytes(f.tensors))
  }

  /** b begins with f, and `file` is what it says. */
  predicate Describes(f: Front, b: Data, file: File) {
    && FrontOk(f) && At(b, 0, FrontBytes(f))
    && file == File(f.version, NamedValues(f.entries), Descriptions(f.tensors),
                    AlignUp(|FrontBytes(f)|, DeclaredAlignment(NamedValues(f.entries))), b)
  }

  lemma FrontStands(b: Data, f: Front) returns (start: nat, p: nat, q: nat)
    requires FrontOk(f) && At(b, 0, FrontBytes(f))
    ensures start == 24 && q == |FrontBytes(f)| && At(b, 0, HeaderBytes(f.version, |f.tensors|, |f.entries|))
    ensures AllNamedStand(b, start, f.entries, p) && AllDescribedStand(b, p, f.tensors, q)
  {
    start, p, q := FrontSplit(b, HeaderBytes(f.version, |f.tensors|, |f.entries|), NamedBytes(f.entries), DescribedBytes(f.tensors));
  }

  lemma FrontSplit(b: Data, h: Data, e: Data, t: Data) returns (start: nat, p: nat, q: nat)
    requires At(b, 0, h + (e + t))
    ensures start == |h| && p == start + |e| && q == p + |t| == |h + (e + t)| && At(b, 0, h) && At(b, start, e) && At(b, p, t)
  {
    start, p, q := |h|, |h| + |e|, |h| + |e| + |t|;
    AtSplit(b, 0, h, e + t, start);
    AtSplit(b, start, e, t, p);
  }

  lemma FrontOpens(f: Front, b: Data, file: File)
    requires Describes(f, b, file)
    ensures Opened(b) == Ok(file)
  {
    var start, p, q := FrontStands(b, f);
    HeaderStands(b, f.version, |f.tensors|, |f.entries|);
    NamedAllRead(b, start, f.entries, p);
    DescribedAllRead(b, p, f.tensors, q);
    PartsOpened(b, f.version, |f.tensors|, |f.entries|, NamedValues(f.entries), Descriptions(f.tensors), start, p, q);
  }

  lemma PartsOpened(b: Data, version: nat, n: nat, m: nat, metadata: map<Data, Value>, infos: map<Data, TensorInfo>, start: nat, p: nat, q: nat)
    requires ReadHeader(b) == Ok(Parsed((version, n, m), start))
    requires ReadEntries(b, start, m) == Ok(Parsed(metadata, p)) && ReadInfos(b, p, n) == Ok(Parsed(infos, q))
    ensures Opened(b) == Ok(File(version, metadata, infos, AlignUp(q, DeclaredAlignment(metadata)), b))
  {
  }

  lemma OpenedFront(b: Data, file: File) returns (f: Front)
    requires Opened(b) == Ok(file)
    ensures Describes(f, b, file)
  {
    var (version, tensors, entries) := ReadHeader(b).value.value;
    HeaderIs(b, version, tensors, entries, ReadHeader(b).value.next);
    var metadata := ReadEntries(b, 24, entries).value;
    var xs := NamedAre(b, 24, entries, metadata.value, metadata.next);
    var infos := ReadInfos(b, metadata.next, tensors).value;
    var ts := DescribedAre(b, metadata.next, tensors, infos.value, infos.next);
    Join(b, 24, NamedBytes(xs), DescribedBytes(ts), metadata.next);
    Join(b, 0, HeaderBytes(version, tensors, entries), NamedBytes(xs) + DescribedBytes(ts), 24);
    f := Front(version, xs, ts);
  }

  /** The reader opens exactly the byte sequences that begin with a header, metadata and tensor descriptions within its limits, and
      then reports exactly what they say. */
  lemma OpensIff(b: Data, file: File)
    ensures Opened(b) == Ok(file) <==> exists f :: Describes(f, b, file)
  {
    if Opened(b) == Ok(file) {
      var f := OpenedFront(b, file);
    }
    if f :| Describes(f, b, file) { FrontOpens(f, b, file); }
  }

  /** In an opened file of addressable size a tensor's data is found exactly if it is described, its length is defined, and all of
      it lies inside the file. */
  lemma TensorDataIff(f: File, name: Data, d: Data)
    requires |f.bytes| <= MAX_USIZE
    ensures TensorData(f, name) == Ok(d) <==>
      && name in f.tensors && ByteLength(f.tensors[name].dims, f.tensors[name].kind) == Some(|d|)
      && At(f.bytes, f.dataOffset + f.tensors[name].offset, d)
  {
  }
}
