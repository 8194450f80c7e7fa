/** The GGUF reader: header, metadata, tensor descriptions, and the bytes of one tensor. */
module GgufReader {
  import opened Common
  import opened Bytes
  import opened QuantTypes

  const MAGIC: nat := 0x46554747
  const MIN_HEADER_SIZE: nat := 16
  const DEFAULT_ALIGNMENT: nat := 32
  const MAX_STRING_LEN: nat := 1024 * 1024
  const MAX_METADATA_COUNT: nat := 100_000
  const MAX_TENSOR_COUNT: nat := 50_000
  const MAX_ARRAY_LEN: nat := 10_000_000

  datatype Error =
    | Io | InvalidMagic(magic: nat) | UnsupportedVersion(version: nat) | InvalidString
    | UnsupportedValueType(code: nat) | TensorNotFound | Malformed

  /** A metadata value; numbers are kept as their little-endian bits together with their type code. */
  datatype Value = Number(code: nat, bits: nat) | Bool(b: bool) | Text(s: Data) | Array(items: seq<Value>)

  datatype TensorInfo = TensorInfo(dims: seq<nat>, kind: nat, offset: nat)

  datatype File = File(version: nat, metadata: map<Data, Value>, tensors: map<Data, TensorInfo>, dataOffset: nat, bytes: Data)

  /** What was read, and where reading goes on. */
  datatype Parsed<T> = Parsed(value: T, next: nat)

  type Read<T> = Result<Parsed<T>, Error>

  // ---------- numbers and strings ----------

  function ReadNumber(b: Data, p: nat, k: nat): (r: Read<nat>)
    ensures r.Ok? ==> r.value.next == p + k <= |b|
  {
    if p + k <= |b| then Ok(Parsed(FromLe(b[p..p + k]), p + k)) else Err(Io)
  }

  /** Well-formed UTF-8: section 3 of RFC 3629. */
  predicate Utf8(s: Data) {
    if |s| == 0 then true
    else if s[0] < 0x80 then Utf8(s[1..])
    else if 0xC2 <= s[0] <= 0xDF then |s| >= 2 && Tail(s[1]) && Utf8(s[2..])
    else if 0xE0 <= s[0] <= 0xEF then
      |s| >= 3 && Tail(s[1]) && Tail(s[2]) && (s[0] == 0xE0 ==> s[1] >= 0xA0) && (s[0] == 0xED ==> s[1] <= 0x9F) && Utf8(s[3..])
    else if 0xF0 <= s[0] <= 0xF4 then
      |s| >= 4 && Tail(s[1]) && Tail(s[2]) && Tail(s[3]) && (s[0] == 0xF0 ==> s[1] >= 0x90) && (s[0] == 0xF4 ==> s[1] <= 0x8F) && Utf8(s[4..])
    else false
  }

  predicate Tail(x: byte) {
    0x80 <= x <= 0xBF
  }

  function ReadString(b: Data, p: nat): (r: Read<Data>)
    ensures r.Ok? ==> p + 8 <= r.value.next <= |b|
  {
    match ReadNumber(b, p, 8)
    case Err(e) => Err(e)
    case Ok(Parsed(len, q)) =>
      if len > MAX_STRING_LEN then Err(Malformed)
      else if q + len > |b| then Err(Io)
      else if !Utf8(b[q..q + len]) then Err(InvalidString)
      else Ok(Parsed(b[q..q + len], q + len))
  }

  // ---------- values ----------

  /** The width of a numeric type code; 0 for the others. */
  function Width(code: nat): nat {
    if code == 0 || code == 1 then 1
    else if code == 2 || code == 3 then 2
    else if code == 4 || code == 5 || code == 6 then 4
    else if code == 10 || code == 11 || code == 12 then 8
    else 0
  }

  function ReadValue(b: Data, p: nat, code: nat): (r: Read<Value>)
    ensures r.Ok? ==> p < r.value.next <= |b|
    decreases |b| - p, 1, 0
  {
    if Width(code) > 0 then
      match ReadNumber(b, p, Width(code))
      case Err(e) => Err(e)
      case Ok(Parsed(bits, q)) => Ok(Parsed(Number(code, bits), q))
    else if code == 7 then
      match ReadNumber(b, p, 1)
      case Err(e) => Err(e)
      case Ok(Parsed(bits, q)) => Ok(Parsed(Bool(bits != 0), q))
    else if code == 8 then
      match ReadString(b, p)
      case Err(e) => Err(e)
      case Ok(Parsed(s, q)) => Ok(Parsed(Text(s), q))
    else if code == 9 then
      match ReadNumber(b, p, 4)
      case Err(e) => Err(e)
      case Ok(Parsed(elem, q)) =>
        match ReadNumber(b, q, 8)
        case Err(e) => Err(e)
        case Ok(Parsed(len, start)) =>
          if len > MAX_ARRAY_LEN then Err(Malformed)
          else
            match ReadItems(b, start, elem, len)
            case Err(e) => Err(e)
            case Ok(Parsed(items, end)) => Ok(Parsed(Array(items), end))
    else Err(UnsupportedValueType(code))
  }

  /** n values of one type, one after the other. */
  function ReadItems(b: Data, p: nat, code: nat, n: nat): (r: Read<seq<Value>>)
    requires p <= |b|
    ensures r.Ok? ==> p <= r.value.next <= |b|
    decreases |b| - p, 2, n
  {
    if n == 0 then Ok(Parsed([], p))
    else
      match ReadValue(b, p, code)
      case Err(e) => Err(e)
      case Ok(Parsed(v, q)) =>
        match ReadItems(b, q, code, n - 1)
        case Err(e) => Err(e)
        case Ok(Parsed(rest, end)) => Ok(Parsed([v] + rest, end))
  }

  // ---------- entries ----------

  function ReadEntry(b: Data, p: nat): (r: Read<(Data, Value)>)
    ensures r.Ok? ==> p <= r.value.next <= |b|
  {
    match ReadString(b, p)
    case Err(e) => Err(e)
    case Ok(Parsed(key, q)) =>
      match ReadNumber(b, q, 4)
      case Err(e) => Err(e)
      case Ok(Parsed(code, v)) =>
        match ReadValue(b, v, code)
        case Err(e) => Err(e)
        case Ok(Parsed(value, end)) => Ok(Parsed((key, value), end))
  }

  /** The first n metadata entries; a repeated key keeps its last value. */
  function ReadEntries(b: Data, p: nat, n: nat): Read<map<Data, Value>> {
    if n == 0 then Ok(Parsed(map[], p))
    else
      match ReadEntries(b, p, n - 1)
      case Err(e) => Err(e)
      case Ok(Parsed(m, q)) =>
        match ReadEntry(b, q)
        case Err(e) => Err(e)
        case Ok(Parsed((key, value), end)) => Ok(Parsed(m[key := value], end))
  }

  function ReadDims(b: Data, p: nat, n: nat): Read<seq<nat>> {
    if n == 0 then Ok(Parsed([], p))
    else
      match ReadDims(b, p, n - 1)
      case Err(e) => Err(e)
      case Ok(Parsed(dims, q)) =>
        match ReadNumber(b, q, 8)
        case Err(e) => Err(e)
        case Ok(Parsed(d, end)) => Ok(Parsed(dims + [d], end))
  }

  function ReadInfo(b: Data, p: nat): Read<(Data, TensorInfo)> {
    match ReadString(b, p)
    case Err(e) => Err(e)
    case Ok(Parsed(name, q)) =>
      match ReadNumber(b, q, 4)
      case Err(e) => Err(e)
      case Ok(Parsed(n, d)) =>
        match ReadDims(b, d, n)
        case Err(e) => Err(e)
        case Ok(Parsed(dims, k)) =>
          match ReadNumber(b, k, 4)
          case Err(e) => Err(e)
          case Ok(Parsed(kind, o)) =>
            if !KnownKind(kind) then Err(UnsupportedValueType(kind))
            else
              match ReadNumber(b, o, 8)
              case Err(e) => Err(e)
              case Ok(Parsed(offset, end)) => Ok(Parsed((name, TensorInfo(dims, kind, offset)), end))
  }

  function ReadInfos(b: Data, p: nat, n: nat): Read<map<Data, TensorInfo>> {
    if n == 0 then Ok(Parsed(map[], p))
    else
      match ReadInfos(b, p, n - 1)
      case Err(e) => Err(e)
      case Ok(Parsed(m, q)) =>
        match ReadInfo(b, q)
        case Err(e) => Err(e)
        case Ok(Parsed((name, info), end)) => Ok(Parsed(m[name := info], end))
  }

  /** "general.alignment". */
  const ALIGNMENT_KEY: Data := [103, 101, 110, 101, 114, 97, 108, 46, 97, 108, 105, 103, 110, 109, 101, 110, 116]

  /** The alignment the metadata declares, if it is a 32-bit unsigned number. */
  function DeclaredAlignment(metadata: map<Data, Value>): nat {
    if ALIGNMENT_KEY in metadata && metadata[ALIGNMENT_KEY].Number? && metadata[ALIGNMENT_KEY].code == 4
    then metadata[ALIGNMENT_KEY].bits
    else DEFAULT_ALIGNMENT
  }

  /** The header: tensor count and metadata count, and the position after them. */
  function ReadHeader(b: Data): Read<(nat, nat, nat)> {
    if |b| < MIN_HEADER_SIZE then Err(Malformed)
    else
      var magic := FromLe(b[0..4]);
      var version := FromLe(b[4..8]);
      if magic != MAGIC then Err(InvalidMagic(magic))
      else if version != 2 && version != 3 then Err(UnsupportedVersion(version))
      else
        match ReadNumber(b, 8, 8)
        case Err(e) => Err(e)
        case Ok(Parsed(tensors, q)) =>
          if tensors > MAX_TENSOR_COUNT then Err(Malformed)
          else
            match ReadNumber(b, q, 8)
            case Err(e) => Err(e)
            case Ok(Parsed(entries, end)) =>
              if entries > MAX_METADATA_COUNT then Err(Malformed) else Ok(Parsed((version, tensors, entries), end))
  }

  function Opened(b: Data): Result<File, Error> {
    match ReadHeader(b)
    case Err(e) => Err(e)
    case Ok(Parsed((version, tensors, entries), p)) =>
      match ReadEntries(b, p, entries)
      case Err(e) => Err(e)
      case Ok(Parsed(metadata, q)) =>
        match ReadInfos(b, q, tensors)
        case Err(e) => Err(e)
        case Ok(Parsed(infos, end)) => Ok(File(version, metadata, infos, AlignUp(end, DeclaredAlignment(metadata)), b))
  }

  // ---------- the loops ----------

  /** `open`: a cursor moves over the bytes and two maps fill up. */
  method Open(b: Data) returns (r: Result<File, Error>)
    ensures r == Opened(b)
  {
    var header := ReadHeader(b);
    if header.Err? { return Err(header.error); }
    var (version, tensors, entries) := header.value.value;
    var metadata := OpenMetadata(b, header.value.next, entries);
    if metadata.Err? { return Err(metadata.error); }
    var infos := OpenInfos(b, metadata.value.next, tensors);
    if infos.Err? { return Err(infos.error); }
    r := Ok(File(version, metadata.value.value, infos.value.value, AlignUp(infos.value.next, DeclaredAlignment(metadata.value.value)), b));
  }

  method OpenMetadata(b: Data, start: nat, n: nat) returns (r: Read<map<Data, Value>>)
    ensures r == ReadEntries(b, start, n)
  {
    var cursor, metadata := start, map[];
    for i := 0 to n
      invariant ReadEntries(b, start, i) == Ok(Parsed(metadata, cursor))
    {
      var entry := ReadEntry(b, cursor);
      if entry.Err? {
        EntriesFail(b, start, i + 1, n);
        return Err(entry.error);
      }
      metadata, cursor := metadata[entry.value.value.0 := entry.value.value.1], entry.value.next;
    }
    r := Ok(Parsed(metadata, cursor));
  }

  lemma {:induction false} EntriesFail(b: Data, start: nat, i: nat, n: nat)
    requires i <= n && ReadEntries(b, start, i).Err?
    ensures ReadEntries(b, start, n) == ReadEntries(b, start, i)
  {
    if i < n { EntriesFail(b, start, i, n - 1); }
  }

  method OpenInfos(b: Data, start: nat, n: nat) returns (r: Read<map<Data, TensorInfo>>)
    ensures r == ReadInfos(b, start, n)
  {
    var cursor, tensors := start, map[];
    for i := 0 to n
      invariant ReadInfos(b, start, i) == Ok(Parsed(tensors, cursor))
    {
      var info := ReadInfo(b, cursor);
      if info.Err? {
        InfosFail(b, start, i + 1, n);
        return Err(info.error);
      }
      tensors, cursor := tensors[info.value.value.0 := info.value.value.1], info.value.next;
    }
    r := Ok(Parsed(tensors, cursor));
  }

  lemma {:induction false} InfosFail(b: Data, start: nat, i: nat, n: nat)
    requires i <= n && ReadInfos(b, start, i).Err?
    ensures ReadInfos(b, start, n) == ReadInfos(b, start, i)
  {
    if i < n { InfosFail(b, start, i, n - 1); }
  }

  // ---------- the bytes of one tensor ----------

  /** The product of the dimensions, unless it or a partial product overflows. */
  function Elements(dims: seq<nat>): Option<nat> {
    if |dims| == 0 then Some(1)
    else
      match Elements(dims[..|dims| - 1])
      case None => None
      case Some(n) => if n * dims[|dims| - 1] > MAX_USIZE then None else Some(n * dims[|dims| - 1])
  }

  /** ceil(n / block) */
  function Blocks(n: nat, block: nat): nat
    requires block > 0
  {
    n / block + if n % block > 0 then 1 else 0
  }

  /** The byte length that dimensions and type call for. */
  function ByteLength(dims: seq<nat>, kind: nat): Option<nat> {
    match Elements(dims)
    case None => None
    case Some(n) =>
      match TypeSize(kind)
      case None => None
      case Some(size) =>
        match BlockSize(kind)
        case None => None
        case Some(block) => if block == 0 || Blocks(n, block) * size > MAX_USIZE then None else Some(Blocks(n, block) * size)
  }

  function TensorData(f: File, name: Data): Result<Data, Error> {
    if name !in f.tensors then Err(TensorNotFound)
    else
      var info := f.tensors[name];
      var start := f.dataOffset + info.offset;
      if start > MAX_USIZE then Err(Malformed)
      else
        match ByteLength(info.dims, info.kind)
        case None => Err(Malformed)
        case Some(len) =>
          if start + len > MAX_USIZE || start + len > |f.bytes| then Err(Malformed)
          else Ok(f.bytes[start..start + len])
  }
}
