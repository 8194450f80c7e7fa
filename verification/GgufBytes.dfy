/** The file format byte by byte: numbers, texts, alignment and every kind of metadata value. */
module GgufBytes {
  import opened Bytes
  import opened Common
  import opened GgufReader
  import opened QuantTypes
  import opened GgufRoundTrip
  import GgufWriter
  import opened Hadamard

  // ---------- numbers ----------

  /** The lowest digit to base 256 comes first. */
  lemma LowestFirst(digit: byte, rest: nat, k: nat)
    ensures Le(digit + 256 * rest, k + 1) == [digit] + Le(rest, k)
  {
    assert (digit + 256 * rest) % 256 == digit && (digit + 256 * rest) / 256 == rest;
  }

  /** Every file begins with "GGUF", version 3 and the two counts. */
  lemma FileBegins(tensors: nat, entries: nat)
    ensures GgufWriter.EncodeHeader(tensors, entries)[..8] == [0x47, 0x47, 0x55, 0x46, 3, 0, 0, 0]
    ensures GgufWriter.EncodeHeader(tensors, entries)[8..] == Le(tensors, 8) + Le(entries, 8)
  {
    FourDigits(MAGIC, 0x47, 0x47, 0x55, 0x46);
    FourDigits(GgufWriter.VERSION, 3, 0, 0, 0);
    var d := GgufWriter.EncodeHeader(tensors, entries);
    assert d == Le(MAGIC, 4) + Le(GgufWriter.VERSION, 4) + (Le(tensors, 8) + Le(entries, 8));
  }

  lemma FourDigits(n: nat, a: byte, b: byte, c: byte, d: byte)
    requires n == a + 256 * (b + 256 * (c + 256 * (d + 256 * 0)))
    ensures Le(n, 4) == [a, b, c, d]
  {
    LowestFirst(d, 0, 0);
    LowestFirst(c, d + 256 * 0, 1);
    LowestFirst(b, c + 256 * (d + 256 * 0), 2);
    LowestFirst(a, b + 256 * (c + 256 * (d + 256 * 0)), 3);
  }

  /** The key under which an alignment is declared. */
  lemma AlignmentKey()
    ensures |ALIGNMENT_KEY| == |"general.alignment"|
    ensures forall i :: 0 <= i < |ALIGNMENT_KEY| ==> ALIGNMENT_KEY[i] == "general.alignment"[i] as int
  {
  }

  // ---------- alignment ----------

  lemma {:induction false} AndNotMask(x: nat, k: nat)
    ensures AndNot(x, Pow2(k) - 1) == x - x % Pow2(k)
    decreases k
  {
    if k == 0 {
      AndNotZero(x);
    } else {
      var below := k - 1;
      var m, half := Pow2(below), x / 2;
      assert Pow2(k) - 1 == 2 * (m - 1) + 1;
      AndNotHalf(x, m - 1, half);
      AndNotMask(half, below);
      HalfRemainder(x, m);
    }
  }

  lemma HalfRemainder(x: nat, m: nat)
    requires m > 0
    ensures 2 * (x / 2 - x / 2 % m) == x - x % (2 * m)
  {
    var q, r := x / 2 / m, x / 2 % m;
    assert x == 2 * (q * m + r) + x % 2 == q * (2 * m) + (2 * r + x % 2);
    DivUnique(x, 2 * m, q, 2 * r + x % 2);
  }

  lemma RoundedUp(x: nat, a: nat, y: nat)
    requires a > 0 && y == x + (a - 1)
    ensures x <= y - y % a < x + a && (y - y % a) % a == 0
  {
    var q := y / a;
    assert y - y % a == q * a + 0;
    DivUnique(q * a, a, q, 0);
  }

  /** For a power of two the start of the data is the next multiple of the alignment. */
  lemma AlignUpIs(x: nat, k: nat)
    ensures var a := Pow2(k); x <= AlignUp(x, a) < x + a && AlignUp(x, a) % a == 0
  {
    var a := Pow2(k);
    var y := x + (a - 1);
    AndNotMask(y, k);
    RoundedUp(x, a, y);
    Masked(x, a, y);
  }

  lemma Masked(x: nat, a: nat, y: nat)
    requires a > 0 && y == x + (a - 1)
    ensures AlignUp(x, a) == AndNot(y, a - 1)
  {
  }

  // ---------- lengths ----------

  function ProductOf(dims: seq<nat>): nat {
    if |dims| == 0 then 1 else dims[0] * ProductOf(dims[1..])
  }

  lemma {:induction false} ProductLast(dims: seq<nat>)
    requires |dims| > 0
    ensures ProductOf(dims) == ProductOf(dims[..|dims| - 1]) * dims[|dims| - 1]
  {
    var n := |dims| - 1;
    if n > 0 {
      ProductLast(dims[1..]);
      assert dims[1..][..n - 1] == dims[..n][1..];
      var a, b, c := dims[0], ProductOf(dims[..n][1..]), dims[n];
      assert a * (b * c) == a * b * c;
    } else {
      assert dims[1..] == [] && dims[..0] == [];
    }
  }

  /** A tensor has the product of its dimensions as elements, unless a partial product leaves 64 bits. */
  lemma {:induction false} ElementsAre(dims: seq<nat>)
    ensures Elements(dims).Some? ==> Elements(dims).value == ProductOf(dims)
    ensures Elements(dims).None? <==> exists i :: 0 < i <= |dims| && ProductOf(dims[..i]) > MAX_USIZE
  {
    if |dims| > 0 {
      var n := |dims| - 1;
      ElementsAre(dims[..n]);
      ProductLast(dims);
      assert dims[..|dims|] == dims;
      assert forall i :: 0 < i <= n ==> dims[..n][..i] == dims[..i];
    }
  }

  /** Its bytes are those of the fewest whole blocks that hold them. */
  lemma LengthIs(dims: seq<nat>, kind: nat)
    requires ByteLength(dims, kind).Some?
    ensures Elements(dims).Some? && TypeSize(kind).Some? && BlockSize(kind).Some? && BlockSize(kind).value > 0
    ensures var n, block, size := Elements(dims).value, BlockSize(kind).value, TypeSize(kind).value;
      exists blocks: nat :: Fewest(n, block, blocks) && ByteLength(dims, kind) == Some(blocks * size)
  {
    var n, block := Elements(dims).value, BlockSize(kind).value;
    assert Fewest(n, block, Blocks(n, block)) by { FewestBlocks(n, block); }
  }

  predicate Fewest(n: nat, block: nat, blocks: nat) {
    n <= blocks * block && (blocks > 0 ==> (blocks - 1) * block < n)
  }

  lemma FewestBlocks(n: nat, block: nat)
    requires block > 0
    ensures Fewest(n, block, Blocks(n, block))
  {
    var q, r := n / block, n % block;
    assert n == q * block + r;
    assert (q + 1) * block == q * block + block;
    if r == 0 && q > 0 { assert (q - 1) * block == q * block - block; }
  }

  // ---------- text ----------

  /** A Unicode scalar value. */
  predicate Scalar(c: nat) {
    c < 0xD800 || 0xE000 <= c < 0x11_0000
  }

  /** Section 3 of RFC 3629. */
  function EncodeChar(c: nat): Data
    requires Scalar(c)
  {
    if c < 0x80 then [c]
    else if c < 0x800 then [0xC0 + c / 0x40, 0x80 + c % 0x40]
    else if c < 0x1_0000 then [0xE0 + c / 0x1000, 0x80 + c / 0x40 % 0x40, 0x80 + c % 0x40]
    else [0xF0 + c / 0x4_0000, 0x80 + c / 0x1000 % 0x40, 0x80 + c / 0x40 % 0x40, 0x80 + c % 0x40]
  }

  predicate Scalars(cs: seq<nat>) {
    forall i :: 0 <= i < |cs| ==> Scalar(cs[i])
  }

  function EncodeText(cs: seq<nat>): Data
    requires Scalars(cs)
  {
    if |cs| == 0 then [] else EncodeChar(cs[0]) + EncodeText(cs[1..])
  }

  lemma CharThenText(c: nat, rest: Data)
    requires Scalar(c) && Utf8(rest)
    ensures Utf8(EncodeChar(c) + rest)
  {
    var e := EncodeChar(c);
    var s := e + rest;
    assert s[|e|..] == rest;
    if c < 0x80 {
      assert s[0] == c;
    } else if c < 0x800 {
      assert 0xC2 <= s[0] <= 0xDF && Tail(s[1]);
    } else if c < 0x1_0000 {
      assert 0xE0 <= s[0] <= 0xEF && Tail(s[1]) && Tail(s[2]);
    } else {
      assert 0xF0 <= s[0] <= 0xF4 && Tail(s[1]) && Tail(s[2]) && Tail(s[3]);
    }
  }

  lemma {:induction false} TextIsUtf8(cs: seq<nat>)
    requires Scalars(cs)
    ensures Utf8(EncodeText(cs))
  {
    if |cs| > 0 {
      TextIsUtf8(cs[1..]);
      CharThenText(cs[0], EncodeText(cs[1..]));
    }
  }

  lemma TwoBytes(a: byte, b: byte) returns (c: nat)
    requires 0xC2 <= a <= 0xDF && Tail(b)
    ensures Scalar(c) && EncodeChar(c) == [a, b]
  {
    var x: int, y: int := a - 0xC0, b - 0x80;
    c := x * 0x40 + y;
  }

  lemma ThreeBytes(a: byte, b: byte, d: byte) returns (c: nat)
    requires 0xE0 <= a <= 0xEF && Tail(b) && Tail(d) && (a == 0xE0 ==> b >= 0xA0) && (a == 0xED ==> b <= 0x9F)
    ensures Scalar(c) && EncodeChar(c) == [a, b, d]
  {
    var x: int, y: int, z: int := a - 0xE0, b - 0x80, d - 0x80;
    c := x * 0x1000 + y * 0x40 + z;
    assert c / 0x40 == x * 0x40 + y;
  }

  lemma FourBytes(a: byte, b: byte, d: byte, e: byte) returns (c: nat)
    requires 0xF0 <= a <= 0xF4 && Tail(b) && Tail(d) && Tail(e) && (a == 0xF0 ==> b >= 0x90) && (a == 0xF4 ==> b <= 0x8F)
    ensures Scalar(c) && EncodeChar(c) == [a, b, d, e]
  {
    var x: int, y: int, z: int, w: int := a - 0xF0, b - 0x80, d - 0x80, e - 0x80;
    c := x * 0x4_0000 + y * 0x1000 + z * 0x40 + w;
    assert c / 0x40 == x * 0x1000 + y * 0x40 + z && c / 0x1000 == x * 0x40 + y;
  }

  /** The first character of a well-formed text. */
  lemma FirstChar(s: Data) returns (c: nat, n: nat)
    requires Utf8(s) && |s| > 0
    ensures Scalar(c) && 0 < n <= |s| && s[..n] == EncodeChar(c) && Utf8(s[n..])
  {
    if s[0] < 0x80 {
      c, n := s[0], 1;
    } else if s[0] <= 0xDF {
      c := TwoBytes(s[0], s[1]);
      n := 2;
    } else if s[0] <= 0xEF {
      c := ThreeBytes(s[0], s[1], s[2]);
      n := 3;
    } else {
      c := FourBytes(s[0], s[1], s[2], s[3]);
      n := 4;
    }
  }

  lemma {:induction false} Utf8IsText(s: Data) returns (cs: seq<nat>)
    requires Utf8(s)
    ensures Scalars(cs) && EncodeText(cs) == s
    decreases |s|
  {
    cs := [];
    if |s| > 0 {
      var c, n := FirstChar(s);
      var rest := Utf8IsText(s[n..]);
      cs := [c] + rest;
      assert cs[1..] == rest && s == s[..n] + s[n..];
    }
  }

  predicate Spells(cs: seq<nat>, s: Data) {
    Scalars(cs) && EncodeText(cs) == s
  }

  /** The strings the reader accepts are exactly the encodings of sequences of Unicode characters. */
  lemma Utf8Is(s: Data)
    ensures Utf8(s) <==> exists cs :: Spells(cs, s)
  {
    if Utf8(s) {
      var cs := Utf8IsText(s);
      assert Spells(cs, s);
    }
    if cs :| Spells(cs, s) { TextIsUtf8(cs); }
  }

  // ---------- values of every type ----------

  /** A metadata value to be written: a number with its type code and bit pattern, a truth value's byte, a string, or a list of
      values of one type. */
  datatype Item = Num(code: nat, bits: nat) | Flag(on: byte) | Str(s: Data) | List(elem: nat, items: seq<Item>)

  function CodeOf(x: Item): nat {
    match x
    case Num(code, _) => code
    case Flag(_) => 7
    case Str(_) => 8
    case List(_, _) => 9
  }

  /** Bytes of a number: 8-bit, 16-bit, 32-bit and 64-bit types. */
  function BytesOf(code: nat): nat {
    if code in {0, 1} then 1 else if code in {2, 3} then 2 else if code in {4, 5, 6} then 4 else if code in {10, 11, 12} then 8 else 0
  }

  predicate ItemOk(x: Item) {
    match x
    case Num(code, bits) => BytesOf(code) > 0 && bits < Pow256(BytesOf(code))
    case Flag(_) => true
    case Str(s) => StringOk(s)
    case List(elem, items) =>
      elem < Pow256(4) && |items| <= 10_000_000 && forall i :: 0 <= i < |items| ==> CodeOf(items[i]) == elem && ItemOk(items[i])
  }

  function EncodeItem(x: Item): Data
    decreases x, 0
  {
    match x
    case Num(code, bits) => Le(bits, BytesOf(code))
    case Flag(on) => [on]
    case Str(s) => GgufWriter.EncodeString(s)
    case List(elem, items) => Le(elem, 4) + (Le(|items|, 8) + EncodeItems(items))
  }

  function EncodeItems(items: seq<Item>): Data
    decreases items, 1
  {
    if |items| == 0 then [] else EncodeItem(items[0]) + EncodeItems(items[1..])
  }

  function ReadBack(x: Item): Value
    decreases x, 0
  {
    match x
    case Num(code, bits) => Number(code, bits)
    case Flag(on) => Bool(on != 0)
    case Str(s) => Text(s)
    case List(_, items) => Array(AllReadBack(items))
  }

  function AllReadBack(items: seq<Item>): (v: seq<Value>)
    ensures |v| == |items|
    decreases items, 1
  {
    if |items| == 0 then [] else [ReadBack(items[0])] + AllReadBack(items[1..])
  }

  lemma NumRead(b: Data, p: nat, code: nat, bits: nat, q: nat)
    requires BytesOf(code) > 0 && bits < Pow256(BytesOf(code)) && At(b, p, Le(bits, BytesOf(code))) && q == p + BytesOf(code)
    ensures ReadValue(b, p, code) == Ok(Parsed(Number(code, bits), q))
  {
    NumberRead(b, p, bits, BytesOf(code), q);
  }

  /** Any byte but zero is true. */
  lemma FlagRead(b: Data, p: nat)
    requires p < |b|
    ensures ReadValue(b, p, 7) == Ok(Parsed(Bool(b[p] != 0), p + 1))
  {
    var d := b[p..p + 1];
    assert d == [b[p]] && d[1..] == [];
    assert FromLe(d) == d[0] + 256 * FromLe(d[1..]);
  }

  /** What is written with its type code is read back, for every type of value, lists of lists included. */
  lemma {:induction false} ItemRead(b: Data, p: nat, x: Item, q: nat)
    requires ItemOk(x) && At(b, p, EncodeItem(x)) && q == p + |EncodeItem(x)|
    ensures ReadValue(b, p, CodeOf(x)) == Ok(Parsed(ReadBack(x), q))
    decreases x, 0
  {
    match x
    case Num(code, bits) => NumRead(b, p, code, bits, q);
    case Flag(_) => FlagRead(b, p);
    case Str(s) => StringRead(b, p, s, q);
    case List(elem, items) =>
      ListHead(b, p, elem, items, |items|, p + 4, p + 12);
      ItemsRead(b, p + 12, elem, items, q);
  }

  lemma ListHead(b: Data, p: nat, elem: nat, items: seq<Item>, n: nat, mid: nat, start: nat)
    requires n == |items| && elem < Pow256(4) && |items| <= MAX_ARRAY_LEN && mid == p + 4 && start == p + 12
    requires At(b, p, Le(elem, 4) + (Le(|items|, 8) + EncodeItems(items)))
    ensures ReadNumber(b, p, 4) == Ok(Parsed(elem, mid)) && ReadNumber(b, mid, 8) == Ok(Parsed(n, start))
    ensures At(b, start, EncodeItems(items))
  {
    Pow256Eight();
    AtSplit(b, p, Le(elem, 4), Le(|items|, 8) + EncodeItems(items), mid);
    AtSplit(b, mid, Le(|items|, 8), EncodeItems(items), start);
    NumberRead(b, p, elem, 4, mid);
    NumberRead(b, mid, |items|, 8, start);
  }

  lemma {:induction false} ItemsRead(b: Data, p: nat, elem: nat, items: seq<Item>, q: nat)
    requires forall i :: 0 <= i < |items| ==> CodeOf(items[i]) == elem && ItemOk(items[i])
    requires At(b, p, EncodeItems(items)) && q == p + |EncodeItems(items)|
    ensures ReadItems(b, p, elem, |items|) == Ok(Parsed(AllReadBack(items), q))
    decreases items, 1
  {
    if |items| > 0 {
      var x, rest := items[0], items[1..];
      var next := p + |EncodeItem(x)|;
      AtSplit(b, p, EncodeItem(x), EncodeItems(rest), next);
      ItemRead(b, p, x, next);
      ItemsRead(b, next, elem, rest, q);
    }
  }

  /** No other type code is known. */
  lemma UnknownCodes(b: Data, p: nat, code: nat)
    requires code > 12
    ensures ReadValue(b, p, code) == Err(UnsupportedValueType(code))
  {
  }
}
