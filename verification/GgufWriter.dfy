/** The GGUF writer: entries and tensors are collected, then laid out in one go. */
module GgufWriter {
  import opened Common
  import opened Bytes
  import opened QuantTypes
  import opened GgufReader

  const VERSION: nat := 3
  const ALIGNMENT: nat := 32

  datatype Entry = Entry(key: Data, code: nat, raw: Data)

  datatype Tensor = Tensor(name: Data, dims: seq<nat>, kind: nat, data: Data)

  // ---------- encodings ----------

  function EncodeString(s: Data): Data {
    Le(|s|, 8) + s
  }

  function EncodeStrings(items: seq<Data>): Data {
    if |items| == 0 then [] else EncodeString(items[0]) + EncodeStrings(items[1..])
  }

  function EncodeEntry(e: Entry): Data {
    EncodeString(e.key) + (Le(e.code, 4) + e.raw)
  }

  function EncodeEntries(es: seq<Entry>): Data {
    if |es| == 0 then [] else EncodeEntries(es[..|es| - 1]) + EncodeEntry(es[|es| - 1])
  }

  function EncodeDims(dims: seq<nat>): Data {
    if |dims| == 0 then [] else EncodeDims(dims[..|dims| - 1]) + Le(dims[|dims| - 1], 8)
  }

  function EncodeInfo(t: Tensor, offset: nat): Data {
    EncodeString(t.name) + (Le(|t.dims|, 4) + (EncodeDims(t.dims) + (Le(t.kind, 4) + Le(offset, 8))))
  }

  /** Where the data of the tensor after ts begins, relative to the data section: every tensor is padded to 32 bytes. */
  function Offset(ts: seq<Tensor>): nat {
    if |ts| == 0 then 0 else Offset(ts[..|ts| - 1]) + AlignUp(|ts[|ts| - 1].data|, ALIGNMENT)
  }

  function EncodeInfos(ts: seq<Tensor>): Data {
    if |ts| == 0 then [] else EncodeInfos(ts[..|ts| - 1]) + EncodeInfo(ts[|ts| - 1], Offset(ts[..|ts| - 1]))
  }

  function Zeros(n: nat): (z: Data)
    ensures |z| == n
  {
    seq(n, _ => 0)
  }

  function Padding(n: nat): (z: Data)
    ensures n + |z| == AlignUp(n, ALIGNMENT)
  {
    Align32(n);
    Zeros(AlignUp(n, ALIGNMENT) - n)
  }

  function Padded(t: Tensor): Data {
    t.data + Padding(|t.data|)
  }

  function EncodeData(ts: seq<Tensor>): Data {
    if |ts| == 0 then [] else EncodeData(ts[..|ts| - 1]) + Padded(ts[|ts| - 1])
  }

  function EncodeHeader(tensors: nat, entries: nat): (d: Data)
    ensures |d| == 24
  {
    Le(MAGIC, 4) + (Le(VERSION, 4) + (Le(tensors, 8) + Le(entries, 8)))
  }

  /** Header, metadata and tensor descriptions. */
  function EncodeFront(es: seq<Entry>, ts: seq<Tensor>): Data {
    EncodeHeader(|ts|, |es|) + (EncodeEntries(es) + EncodeInfos(ts))
  }

  function EncodeFile(es: seq<Entry>, ts: seq<Tensor>): Data {
    EncodeFront(es, ts) + (Padding(|EncodeFront(es, ts)|) + EncodeData(ts))
  }

  // ---------- the writer object ----------

  class GgufWriter {
    var metadata: seq<Entry>
    var tensors: seq<Tensor>

    constructor ()
      ensures metadata == [] && tensors == []
    {
      metadata, tensors := [], [];
    }

    /** Packing a number that does not fit raises an error in the source. */
    method AddUint32(key: Data, n: nat)
      requires n < Pow256(4)
      modifies this`metadata
      ensures metadata == old(metadata) + [Entry(key, 4, Le(n, 4))]
    {
      metadata := metadata + [Entry(key, 4, Le(n, 4))];
    }

    method AddUint64(key: Data, n: nat)
      requires n < Pow256(8)
      modifies this`metadata
      ensures metadata == old(metadata) + [Entry(key, 10, Le(n, 8))]
    {
      metadata := metadata + [Entry(key, 10, Le(n, 8))];
    }

    /** The float's bits. */
    method AddFloat32(key: Data, bits: nat)
      requires bits < Pow256(4)
      modifies this`metadata
      ensures metadata == old(metadata) + [Entry(key, 6, Le(bits, 4))]
    {
      metadata := metadata + [Entry(key, 6, Le(bits, 4))];
    }

    method AddString(key: Data, s: Data)
      modifies this`metadata
      ensures metadata == old(metadata) + [Entry(key, 8, EncodeString(s))]
    {
      metadata := metadata + [Entry(key, 8, EncodeString(s))];
    }

    method AddStringArray(key: Data, items: seq<Data>)
      modifies this`metadata
      ensures metadata == old(metadata) + [Entry(key, 9, Le(8, 4) + (Le(|items|, 8) + EncodeStrings(items)))]
    {
      var body: Data := [];
      for i := 0 to |items|
        invariant body + EncodeStrings(items[i..]) == EncodeStrings(items)
      {
        assert items[i..][1..] == items[i + 1..];
        body := body + EncodeString(items[i]);
      }
      assert body + [] == body;
      metadata := metadata + [Entry(key, 9, Le(8, 4) + (Le(|items|, 8) + body))];
    }

    method AddTensor(name: Data, dims: seq<nat>, kind: nat, data: Data)
      modifies this`tensors
      ensures tensors == old(tensors) + [Tensor(name, dims, kind, data)]
    {
      tensors := tensors + [Tensor(name, dims, kind, data)];
    }

    /** `write`: front, padding, data, with the running tensor offset. */
    method Write() returns (file: Data)
      ensures file == EncodeFile(metadata, tensors)
    {
      var entries: Data := [];
      for i := 0 to |metadata|
        invariant entries == EncodeEntries(metadata[..i])
      {
        assert metadata[..i + 1][..i] == metadata[..i];
        entries := entries + EncodeEntry(metadata[i]);
      }
      assert metadata[..|metadata|] == metadata;
      var infos := WriteInfos(tensors);
      var front := EncodeHeader(|tensors|, |metadata|) + (entries + infos);
      var data := WriteData(tensors);
      file := front + (Padding(|front|) + data);
    }
  }

  method WriteInfos(tensors: seq<Tensor>) returns (infos: Data)
    ensures infos == EncodeInfos(tensors)
  {
    infos := [];
    var offset := 0;
    for i := 0 to |tensors|
      invariant infos == EncodeInfos(tensors[..i]) && offset == Offset(tensors[..i])
    {
      assert tensors[..i + 1][..i] == tensors[..i];
      infos := infos + EncodeInfo(tensors[i], offset);
      offset := offset + AlignUp(|tensors[i].data|, ALIGNMENT);
    }
    assert tensors[..|tensors|] == tensors;
  }

  method WriteData(tensors: seq<Tensor>) returns (data: Data)
    ensures data == EncodeData(tensors)
  {
    data := [];
    for i := 0 to |tensors|
      invariant data == EncodeData(tensors[..i])
    {
      assert tensors[..i + 1][..i] == tensors[..i];
      data := data + Padded(tensors[i]);
    }
    assert tensors[..|tensors|] == tensors;
  }
}
