/** What the bytes of a quantised block mean, and the decoders that write the values out. */
module QuantBlocks {
  import opened Bytes
  import opened Common
  import Hadamard
  import opened Layout
  import opened QuantTypes
  import opened Vectors

  // ---------- numbers ----------

  /** 2^(e - bias). */
  function Exponent(e: nat, bias: nat): real {
    if e >= bias then Hadamard.Pow2(e - bias) as real else Reciprocal(Hadamard.Pow2(bias - e) as real)
  }

  function Reciprocal(x: real): real {
    if x == 0.0 then 0.0 else 1.0 / x
  }

  function Sign(bit: nat): real {
    if bit == 0 then 1.0 else -1.0
  }

  /** A binary float from its fields: section 3.4 of IEEE 754, finite numbers. */
  function Float(sign: nat, exponent: nat, fraction: nat, hidden: nat, bias: nat): real {
    var magnitude :=
      if exponent == 0 then Times(fraction as real, Exponent(1, bias)) else Times((hidden + fraction) as real, Exponent(exponent, bias));
    Times(Sign(sign), magnitude)
  }

  /** Half precision: 1 + 5 + 10 bits. */
  function Half(lo: byte, hi: byte): real {
    Float(hi / 128, hi / 4 % 32, hi % 4 * 256 + lo, 1024, 25)
  }

  /** bfloat16: the upper half of a single. */
  function Brain(lo: byte, hi: byte): real {
    Single(0, 0, lo, hi)
  }

  /** Single precision: 1 + 8 + 23 bits. */
  function Single(b0: byte, b1: byte, b2: byte, b3: byte): real {
    Float(b3 / 128, b3 % 128 * 2 + b2 / 128, b2 % 128 * 0x1_0000 + b1 * 256 + b0, 0x80_0000, 150)
  }

  /** A byte read as a two's-complement number. */
  function Signed(x: byte): int {
    if x < 128 then x else x - 256
  }

  // ---------- six-bit scales and minimums ----------

  /** `get_scale_min_k4`: & 63 is % 64, >> 6 is / 64, << 4 is * 16, and the or joins disjoint bits. */
  function GetScaleMinK4(j: nat, q: Data): (r: (nat, nat))
    requires j < 8 && |q| == 12
    ensures r.0 < 64 && r.1 < 64
  {
    if j < 4 then (q[j] % 64, q[j + 4] % 64)
    else (q[j + 4] % 16 + q[j - 4] / 64 * 16, q[j + 4] / 16 + q[j] / 64 * 16)
  }

  /** The layout written out from the packing side, as a specification of the unpacking; the library itself has no packer.
      Low pairs are whole, high pairs are nibbles with their top bits on the low ones. */
  function PackedByte(scales: seq<nat>, mins: seq<nat>, i: nat): (x: byte)
    requires |scales| == |mins| == 8 && i < 12 && SixBits(scales) && SixBits(mins)
  {
    if i < 4 then scales[i] + scales[i + 4] / 16 * 64
    else if i < 8 then mins[i - 4] + mins[i] / 16 * 64
    else scales[i - 4] % 16 + mins[i - 4] % 16 * 16
  }

  predicate SixBits(s: seq<nat>) {
    forall i :: 0 <= i < |s| ==> s[i] < 64
  }

  function PackScales(scales: seq<nat>, mins: seq<nat>): (q: Data)
    requires |scales| == |mins| == 8 && SixBits(scales) && SixBits(mins)
    ensures |q| == 12
  {
    seq(12, i requires 0 <= i < 12 => PackedByte(scales, mins, i))
  }

  function Scales(q: Data): (s: seq<nat>)
    requires |q| == 12
    ensures |s| == 8 && SixBits(s)
  {
    seq(8, j requires 0 <= j < 8 => GetScaleMinK4(j, q).0)
  }

  function Mins(q: Data): (s: seq<nat>)
    requires |q| == 12
    ensures |s| == 8 && SixBits(s)
  {
    seq(8, j requires 0 <= j < 8 => GetScaleMinK4(j, q).1)
  }

  /** Unpacking finds what was packed. */
  lemma UnpackPacked(scales: seq<nat>, mins: seq<nat>, j: nat)
    requires |scales| == |mins| == 8 && SixBits(scales) && SixBits(mins) && j < 8
    ensures GetScaleMinK4(j, PackScales(scales, mins)) == (scales[j], mins[j])
  {
    if j < 4 {
      LowPair(scales[j], scales[j + 4]);
      LowPair(mins[j], mins[j + 4]);
    } else {
      UnpackHigh(scales, mins, j);
    }
  }

  lemma UnpackHigh(scales: seq<nat>, mins: seq<nat>, j: nat)
    requires |scales| == |mins| == 8 && SixBits(scales) && SixBits(mins) && 4 <= j < 8
    ensures GetScaleMinK4(j, PackScales(scales, mins)) == (scales[j], mins[j])
  {
    HighPair(scales[j - 4], scales[j], mins[j]);
    HighPair(mins[j - 4], mins[j], scales[j]);
  }

  lemma LowPair(low: nat, high: nat)
    requires low < 64 && high < 64
    ensures (low + high / 16 * 64) % 64 == low && (low + high / 16 * 64) / 64 == high / 16
  {
  }

  lemma HighPair(low: nat, high: nat, other: nat)
    requires low < 64 && high < 64 && other < 64
    ensures (high % 16 + other % 16 * 16) % 16 + (low + high / 16 * 64) / 64 * 16 == high
    ensures (other % 16 + high % 16 * 16) / 16 + (low + high / 16 * 64) / 64 * 16 == high
  {
    LowPair(low, high);
    assert (high % 16 + other % 16 * 16) % 16 == high % 16;
    assert (other % 16 + high % 16 * 16) / 16 == high % 16;
  }

  /** And packing what was unpacked gives the bytes back: none of the 96 bits is lost. */
  lemma PackUnpacked(q: Data, i: nat)
    requires |q| == 12 && i < 12
    ensures PackScales(Scales(q), Mins(q))[i] == q[i]
  {
    if i < 4 {
      Whole(q[i], q[i + 8] % 16, q[i] % 64);
    } else if i < 8 {
      Whole(q[i], q[i + 4] / 16, q[i] % 64);
    } else {
      Nibbles(q[i], q[i - 8] / 64, q[i - 4] / 64);
    }
  }

  lemma Whole(x: byte, nibble: nat, low: nat)
    requires nibble < 16 && low == x % 64
    ensures low + (nibble + x / 64 * 16) / 16 * 64 == x
  {
    assert (nibble + x / 64 * 16) / 16 == x / 64;
  }

  lemma Nibbles(x: byte, high: nat, other: nat)
    requires high < 4 && other < 4
    ensures (x % 16 + high * 16) % 16 + (x / 16 + other * 16) % 16 * 16 == x
  {
    assert (x % 16 + high * 16) % 16 == x % 16;
    assert (x / 16 + other * 16) % 16 == x / 16;
  }

  // ---------- Q4_K ----------

  /** n weights that share a scale and a minimum. */
  function Affine(q: seq<nat>, scale: real, min: real): (v: Vec)
    ensures |v| == |q|
  {
    seq(|q|, l requires 0 <= l < |q| => Times(scale, q[l] as real) - min)
  }

  function LowNibbles(q: Data): (n: seq<nat>)
    ensures |n| == |q|
  {
    seq(|q|, l requires 0 <= l < |q| => q[l] % 16)
  }

  function HighNibbles(q: Data): (n: seq<nat>)
    ensures |n| == |q|
  {
    seq(|q|, l requires 0 <= l < |q| => q[l] / 16)
  }

  function Scale4(block: Data, s: nat): real
    requires |block| == 144 && s < 8
  {
    Times(Half(block[0], block[1]), GetScaleMinK4(s, block[4..16]).0 as real)
  }

  function Min4(block: Data, s: nat): real
    requires |block| == 144 && s < 8
  {
    Times(Half(block[2], block[3]), GetScaleMinK4(s, block[4..16]).1 as real)
  }

  /** The bytes of group j: the low nibbles are sub-block 2j, the high nibbles sub-block 2j + 1. */
  function Group4(block: Data, j: nat): (q: Data)
    requires |block| == 144 && j < 4
    ensures |q| == 32
  {
    block[16 + 32 * j..48 + 32 * j]
  }

  function GroupValues4(block: Data, j: nat): (v: Vec)
    requires |block| == 144 && j < 4
    ensures |v| == 64
  {
    var even, odd := 2 * j, 2 * j + 1;
    Affine(LowNibbles(Group4(block, j)), Scale4(block, even), Min4(block, even))
    + Affine(HighNibbles(Group4(block, j)), Scale4(block, odd), Min4(block, odd))
  }

  function Values4(block: Data, j: nat): (v: Vec)
    requires |block| == 144 && j <= 4
    ensures |v| == 64 * j
  {
    if j == 0 then [] else Values4(block, j - 1) + GroupValues4(block, j - 1)
  }

  // ---------- Q6_K ----------

  /** The six bits of value l in quarter t: a nibble and two bits above it, around 32. */
  function Six(ql: byte, qh: byte, t: nat): int
    requires t < 4
  {
    var nibble := if t < 2 then ql % 16 else ql / 16;
    var top := if t == 0 then qh % 4 else if t == 1 then qh / 4 % 4 else if t == 2 then qh / 16 % 4 else qh / 64;
    nibble + top * 16 - 32
  }

  /** Value l of quarter t in a half: scale byte l / 16 + 2t. */
  function Value6(d: real, ql: Data, qh: Data, sc: Data, t: nat, l: nat): real
    requires |ql| == 64 && |qh| == 32 && |sc| == 8 && t < 4 && l < 32
  {
    Times(Times(d, Signed(sc[l / 16 + 2 * t]) as real), Six(ql[l + 32 * (t % 2)], qh[l], t) as real)
  }

  function Quarter6(d: real, ql: Data, qh: Data, sc: Data, t: nat): (v: Vec)
    requires |ql| == 64 && |qh| == 32 && |sc| == 8 && t < 4
    ensures |v| == 32
  {
    seq(32, l requires 0 <= l < 32 => Value6(d, ql, qh, sc, t, l))
  }

  function Quarters6(d: real, ql: Data, qh: Data, sc: Data): (v: Vec)
    requires |ql| == 64 && |qh| == 32 && |sc| == 8
    ensures |v| == 128
  {
    Quarter6(d, ql, qh, sc, 0) + (Quarter6(d, ql, qh, sc, 1) + (Quarter6(d, ql, qh, sc, 2) + Quarter6(d, ql, qh, sc, 3)))
  }

  function Low6(block: Data, h: nat): (ql: Data)
    requires |block| == 210 && h < 2
    ensures |ql| == 64
  {
    block[64 * h..64 * h + 64]
  }

  function High6(block: Data, h: nat): (qh: Data)
    requires |block| == 210 && h < 2
    ensures |qh| == 32
  {
    block[128 + 32 * h..160 + 32 * h]
  }

  function Scales6(block: Data, h: nat): (sc: Data)
    requires |block| == 210 && h < 2
    ensures |sc| == 8
  {
    block[192 + 8 * h..200 + 8 * h]
  }

  function Half6(block: Data, h: nat): (v: Vec)
    requires |block| == 210 && h < 2
    ensures |v| == 128
  {
    Quarters6(Half(block[208], block[209]), Low6(block, h), High6(block, h), Scales6(block, h))
  }

  // ---------- blocks and rows ----------

  function Values8(block: Data): (v: Vec)
    requires |block| == 34
    ensures |v| == 32
  {
    seq(32, i requires 0 <= i < 32 => Times(Signed(block[2 + i]) as real, Half(block[0], block[1])))
  }

  function Elements(kind: nat): (n: nat)
    requires Decodable(kind)
    ensures n > 0
  {
    BlockSize(kind).value
  }

  function Size(kind: nat): (n: nat)
    requires Decodable(kind)
    ensures n > 0
  {
    TypeSize(kind).value
  }

  function BlockValues(kind: nat, block: Data): (v: Vec)
    requires Decodable(kind) && |block| == Size(kind)
    ensures |v| == Elements(kind)
  {
    if kind == F32 then [Single(block[0], block[1], block[2], block[3])]
    else if kind == F16 then [Half(block[0], block[1])]
    else if kind == BF16 then [Brain(block[0], block[1])]
    else if kind == Q8_0 then Values8(block)
    else if kind == Q4_K then Values4(block, 4)
    else Half6(block, 0) + Half6(block, 1)
  }

  function BlockAt(kind: nat, row: Data, b: nat): (block: Data)
    requires Decodable(kind) && Span(b + 1, Size(kind)) <= |row|
    ensures |block| == Size(kind)
  {
    row[Span(b, Size(kind))..Span(b, Size(kind)) + Size(kind)]
  }

  /** The values of the first n blocks of a row. */
  function RowValues(kind: nat, row: Data, n: nat): (v: Vec)
    requires Decodable(kind) && Span(n, Size(kind)) <= |row|
    ensures |v| == Span(n, Elements(kind))
  {
    if n == 0 then [] else RowValues(kind, row, n - 1) + BlockValues(kind, BlockAt(kind, row, n - 1))
  }

  // ---------- decoding into a buffer ----------

  /** v stands in a from position p on, and nothing else has changed since it was b. */
  ghost predicate Written(b: Vec, a: Vec, p: nat, v: Vec) {
    |a| == |b| && p + |v| <= |a| && a == b[..p] + v + b[p + |v|..]
  }

  method Decode4(block: Data, out: array<real>, at: nat)
    requires |block| == 144 && at + 256 <= out.Length
    modifies out
    ensures Written(old(out[..]), out[..], at, Values4(block, 4))
  {
    ghost var was := out[..];
    assert GroupsDone(block, was, out[..], at, 0);
    for j := 0 to 4
      invariant GroupsDone(block, was, out[..], at, j)
    {
      DecodeNext(block, out, at, j, j + 1, was);
    }
  }

  /** The first j groups stand at `at`, in a buffer that was `was` before. */
  ghost predicate GroupsDone(block: Data, was: Vec, now: Vec, at: nat, j: nat) {
    && |block| == 144 && j <= 4
    && Written(was, now, at, Values4(block, j))
  }

  method DecodeNext(block: Data, out: array<real>, at: nat, j: nat, next: nat, ghost was: Vec)
    requires |block| == 144 && j < 4 && next == j + 1 && at + 256 <= out.Length && GroupsDone(block, was, out[..], at, j)
    modifies out
    ensures GroupsDone(block, was, out[..], at, next)
  {
    ghost var before := out[..];
    var even, odd, p := 2 * j, 2 * j + 1, at + 64 * j;
    DecodeGroup(Group4(block, j), Scale4(block, even), Min4(block, even), Scale4(block, odd), Min4(block, odd), out, p);
    WrittenAfter(was, before, out[..], at, p, Values4(block, j), GroupValues4(block, j));
  }

  lemma WrittenAfter(a: Vec, b: Vec, c: Vec, p: nat, q: nat, v: Vec, w: Vec)
    requires Written(a, b, p, v) && q == p + |v| && Written(b, c, q, w)
    ensures Written(a, c, p, v + w)
  {
    assert b[..q] == a[..p] + v;
    assert b[q + |w|..] == a[p + |v + w|..];
  }

  /** One loop fills both halves of a group. */
  method DecodeGroup(q: Data, d1: real, m1: real, d2: real, m2: real, out: array<real>, at: nat)
    requires |q| == 32 && at + 64 <= out.Length
    modifies out
    ensures Written(old(out[..]), out[..], at, Affine(LowNibbles(q), d1, m1) + Affine(HighNibbles(q), d2, m2))
  {
    ghost var was := out[..];
    ghost var low, high := Affine(LowNibbles(q), d1, m1), Affine(HighNibbles(q), d2, m2);
    for l := 0 to 32
      invariant forall k :: 0 <= k < l ==> out[at + k] == low[k]
      invariant forall k :: 0 <= k < l ==> out[at + 32 + k] == high[k]
      invariant forall k :: 0 <= k < out.Length && (k < at || at + 64 <= k) ==> out[k] == was[k]
    {
      out[at + l] := Times(d1, (q[l] % 16) as real) - m1;
      out[at + 32 + l] := Times(d2, (q[l] / 16) as real) - m2;
    }
    assert out[at..at + 32] == low;
    assert out[at + 32..at + 64] == high;
    assert out[..at] == was[..at] && out[at + 64..] == was[at + 64..];
    assert out[..] == out[..at] + (out[at..at + 32] + out[at + 32..at + 64]) + out[at + 64..];
  }

  method Decode6(block: Data, out: array<real>, at: nat)
    requires |block| == 210 && at + 256 <= out.Length
    modifies out
    ensures Written(old(out[..]), out[..], at, Half6(block, 0) + Half6(block, 1))
  {
    ghost var was := out[..];
    var d := Half(block[208], block[209]);
    DecodeHalf(d, Low6(block, 0), High6(block, 0), Scales6(block, 0), out, at);
    ghost var before := out[..];
    var p := at + 128;
    DecodeHalf(d, Low6(block, 1), High6(block, 1), Scales6(block, 1), out, p);
    WrittenAfter(was, before, out[..], at, p, Half6(block, 0), Half6(block, 1));
  }

  /** One loop fills the four quarters of a half. */
  method DecodeHalf(d: real, ql: Data, qh: Data, sc: Data, out: array<real>, at: nat)
    requires |ql| == 64 && |qh| == 32 && |sc| == 8 && at + 128 <= out.Length
    modifies out
    ensures Written(old(out[..]), out[..], at, Quarters6(d, ql, qh, sc))
  {
    ghost var was := out[..];
    for l := 0 to 32
      invariant QuarterTo(out[..], at, d, ql, qh, sc, 0, l) && QuarterTo(out[..], at + 32, d, ql, qh, sc, 1, l)
      invariant QuarterTo(out[..], at + 64, d, ql, qh, sc, 2, l) && QuarterTo(out[..], at + 96, d, ql, qh, sc, 3, l)
      invariant forall k :: 0 <= k < out.Length && (k < at || at + 128 <= k) ==> out[k] == was[k]
    {
      var v0, v1, v2, v3 := DecodeFour(d, ql, qh, sc, l);
      out[at + l], out[at + 32 + l], out[at + 64 + l], out[at + 96 + l] := v0, v1, v2, v3;
    }
    QuarterDone(out[..], at, d, ql, qh, sc, 0);
    QuarterDone(out[..], at + 32, d, ql, qh, sc, 1);
    QuarterDone(out[..], at + 64, d, ql, qh, sc, 2);
    QuarterDone(out[..], at + 96, d, ql, qh, sc, 3);
    FourParts(was, out[..], at, Quarter6(d, ql, qh, sc, 0), Quarter6(d, ql, qh, sc, 1), Quarter6(d, ql, qh, sc, 2), Quarter6(d, ql, qh, sc, 3));
  }

  /** The first l values of quarter t stand at `at`. */
  ghost predicate QuarterTo(now: Vec, at: nat, d: real, ql: Data, qh: Data, sc: Data, t: nat, l: nat)
    requires |ql| == 64 && |qh| == 32 && |sc| == 8 && t < 4 && l <= 32
  {
    at + 32 <= |now| && forall k :: 0 <= k < l ==> now[at + k] == Value6(d, ql, qh, sc, t, k)
  }

  lemma QuarterDone(now: Vec, at: nat, d: real, ql: Data, qh: Data, sc: Data, t: nat)
    requires |ql| == 64 && |qh| == 32 && |sc| == 8 && t < 4 && QuarterTo(now, at, d, ql, qh, sc, t, 32)
    ensures now[at..at + 32] == Quarter6(d, ql, qh, sc, t)
  {
  }

  /** The four values that share byte l of the top bits. */
  method DecodeFour(d: real, ql: Data, qh: Data, sc: Data, l: nat) returns (v0: real, v1: real, v2: real, v3: real)
    requires |ql| == 64 && |qh| == 32 && |sc| == 8 && l < 32
    ensures v0 == Value6(d, ql, qh, sc, 0, l) && v1 == Value6(d, ql, qh, sc, 1, l)
    ensures v2 == Value6(d, ql, qh, sc, 2, l) && v3 == Value6(d, ql, qh, sc, 3, l)
  {
    var group := l / 16;
    v0 := Times(Times(d, Signed(sc[group]) as real), Six(ql[l], qh[l], 0) as real);
    v1 := Times(Times(d, Signed(sc[group + 2]) as real), Six(ql[l + 32], qh[l], 1) as real);
    v2 := Times(Times(d, Signed(sc[group + 4]) as real), Six(ql[l], qh[l], 2) as real);
    v3 := Times(Times(d, Signed(sc[group + 6]) as real), Six(ql[l + 32], qh[l], 3) as real);
  }

  lemma FourParts(b: Vec, a: Vec, at: nat, u: Vec, v: Vec, w: Vec, x: Vec)
    requires |a| == |b| && at + 128 <= |a|
    requires a[at..at + 32] == u && a[at + 32..at + 64] == v && a[at + 64..at + 96] == w && a[at + 96..at + 128] == x
    requires forall k :: 0 <= k < |a| && (k < at || at + 128 <= k) ==> a[k] == b[k]
    ensures Written(b, a, at, u + (v + (w + x)))
  {
    assert a[..at] == b[..at] && a[at + 128..] == b[at + 128..];
    assert a[at..at + 128] == u + (v + (w + x));
    assert a == a[..at] + a[at..at + 128] + a[at + 128..];
  }

  method Decode8(block: Data, out: array<real>, at: nat)
    requires |block| == 34 && at + 32 <= out.Length
    modifies out
    ensures Written(old(out[..]), out[..], at, Values8(block))
  {
    ghost var was := out[..];
    var d := Half(block[0], block[1]);
    for i := 0 to 32
      invariant forall k :: 0 <= k < i ==> out[at + k] == Values8(block)[k]
      invariant forall k :: 0 <= k < out.Length && (k < at || at + 32 <= k) ==> out[k] == was[k]
    {
      out[at + i] := Times(Signed(block[2 + i]) as real, d);
    }
    assert out[at..at + 32] == Values8(block);
    assert out[..at] == was[..at] && out[at + 32..] == was[at + 32..];
    assert out[..] == out[..at] + out[at..at + 32] + out[at + 32..];
  }

  method DecodeBlock(kind: nat, block: Data, out: array<real>, at: nat)
    requires Decodable(kind) && |block| == Size(kind) && at + Elements(kind) <= out.Length
    modifies out
    ensures Written(old(out[..]), out[..], at, BlockValues(kind, block))
  {
    if kind == Q4_K {
      Decode4(block, out, at);
    } else if kind == Q6_K {
      Decode6(block, out, at);
    } else if kind == Q8_0 {
      Decode8(block, out, at);
    } else {
      out[at] :=
        if kind == F32 then Single(block[0], block[1], block[2], block[3])
        else if kind == F16 then Half(block[0], block[1]) else Brain(block[0], block[1]);
    }
  }

  /** The blocks `dequantize_slice` decodes: as many as the bytes hold for single values, as the output holds for blocks. */
  function DecodedBlocks(kind: nat, bytes: nat, out: nat): nat
    requires Decodable(kind)
  {
    if Elements(kind) == 1 then bytes / Size(kind) else out / Elements(kind)
  }

  /** The sizes on which `dequantize_slice` does not panic: only F32 refuses a short output with an error. */
  predicate Roomy(kind: nat, bytes: nat, out: nat) {
    && (kind == F16 || kind == BF16 ==> bytes / 2 <= out)
    && (kind == Q8_0 || kind == Q4_K || kind == Q6_K ==> Span(out / Elements(kind), Size(kind)) <= bytes)
  }

  lemma BlocksFit(kind: nat, bytes: nat, out: nat)
    requires Decodable(kind) && Roomy(kind, bytes, out) && (kind == F32 ==> bytes / 4 <= out)
    ensures var n := DecodedBlocks(kind, bytes, out); Span(n, Size(kind)) <= bytes && Span(n, Elements(kind)) <= out
  {
    if Elements(kind) == 1 {
      SpanFloor(bytes, Size(kind));
      SpanIs(bytes / Size(kind), 1);
    } else {
      SpanFloor(out, Elements(kind));
    }
  }

  /** A row's buffer of the row's size: all its blocks. */
  lemma RowBlocks(kind: nat, n: nat)
    requires Decodable(kind)
    ensures Roomy(kind, Span(n, Size(kind)), Span(n, Elements(kind)))
    ensures kind == F32 ==> Span(n, Size(kind)) / 4 <= Span(n, Elements(kind))
    ensures DecodedBlocks(kind, Span(n, Size(kind)), Span(n, Elements(kind))) == n
  {
    SpanDiv(n, Size(kind));
    SpanDiv(n, Elements(kind));
    SpanIs(n, Elements(kind));
  }

  /** `dequantize_slice`: the decoded blocks at the front of the output, the rest of it untouched. */
  method DequantizeSlice(kind: nat, bytes: Data, out: array<real>) returns (refused: Option<QuantError>)
    requires Roomy(kind, |bytes|, out.Length)
    modifies out
    ensures refused ==
      if !Decodable(kind) then Some(UnsupportedType(kind))
      else if kind == F32 && out.Length < |bytes| / 4 then Some(BufferTooSmall(|bytes| / 4, out.Length)) else None
    ensures refused == None ==>
      var n := DecodedBlocks(kind, |bytes|, out.Length);
      Span(n, Size(kind)) <= |bytes| && Written(old(out[..]), out[..], 0, RowValues(kind, bytes, n))
    ensures refused != None ==> out[..] == old(out[..])
  {
    if !Decodable(kind) { return Some(UnsupportedType(kind)); }
    if kind == F32 && out.Length < |bytes| / 4 { return Some(BufferTooSmall(|bytes| / 4, out.Length)); }
    BlocksFit(kind, |bytes|, out.Length);
    DequantizeBlocks(kind, bytes, out, DecodedBlocks(kind, |bytes|, out.Length));
    refused := None;
  }

  /** The first b blocks of the row are decoded into the buffer, which was `was` before. */
  ghost predicate DecodedTo(kind: nat, bytes: Data, was: Vec, now: Vec, b: nat) {
    && Decodable(kind) && Span(b, Size(kind)) <= |bytes|
    && Written(was, now, 0, RowValues(kind, bytes, b))
  }

  /** `dequantize_blocks`: block after block. */
  method DequantizeBlocks(kind: nat, bytes: Data, out: array<real>, n: nat)
    requires Decodable(kind) && Span(n, Size(kind)) <= |bytes| && Span(n, Elements(kind)) <= out.Length
    modifies out
    ensures Written(old(out[..]), out[..], 0, RowValues(kind, bytes, n))
  {
    ghost var was := out[..];
    assert DecodedTo(kind, bytes, was, out[..], 0);
    for b := 0 to n
      invariant DecodedTo(kind, bytes, was, out[..], b)
    {
      DequantizeNext(kind, bytes, out, b, b + 1, n, was);
    }
  }

  method DequantizeNext(kind: nat, bytes: Data, out: array<real>, b: nat, next: nat, ghost n: nat, ghost was: Vec)
    requires Decodable(kind) && next == b + 1 <= n && Span(n, Size(kind)) <= |bytes| && Span(n, Elements(kind)) <= out.Length
    requires DecodedTo(kind, bytes, was, out[..], b)
    modifies out
    ensures DecodedTo(kind, bytes, was, out[..], next)
  {
    SpanMono(next, n, Size(kind));
    SpanMono(next, n, Elements(kind));
    ghost var before := out[..];
    DecodeBlock(kind, BlockAt(kind, bytes, b), out, Span(b, Elements(kind)));
    WrittenAfter(was, before, out[..], 0, Span(b, Elements(kind)), RowValues(kind, bytes, b), BlockValues(kind, BlockAt(kind, bytes, b)));
  }

  lemma WrittenAll(b: Vec, a: Vec, v: Vec)
    requires Written(b, a, 0, v) && |v| == |a|
    ensures a == v
  {
  }
}
