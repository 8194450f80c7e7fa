/** The 4-bit and 2-bit TurboQuant engines: normalise, rotate, pick a centroid per coordinate, pack;
    and the look-up-table score that never unpacks. */
module TurboQuant {
  import opened Vectors
  import opened SplitMix
  import opened Rotation

  datatype Width = Four | Two

  const CENTROIDS4: Vec := [-2.152, -1.603, -1.228, -0.923, -0.657, -0.412, -0.177, -0.058,
                            0.058, 0.177, 0.412, 0.657, 0.923, 1.228, 1.603, 2.152]
  const BOUNDARIES4: Vec := [-1.8775, -1.4155, -1.0755, -0.7900, -0.5345, -0.2945, -0.1175, 0.0000,
                             0.1175, 0.2945, 0.5345, 0.7900, 1.0755, 1.4155, 1.8775]
  const CENTROIDS2: Vec := [-1.510, -0.453, 0.453, 1.510]
  const BOUNDARIES2: Vec := [-0.9815, 0.0, 0.9815]

  function Centroids(w: Width): (r: Vec)
    ensures |r| == if w.Four? then 16 else 4
  {
    if w.Four? then CENTROIDS4 else CENTROIDS2
  }

  function Boundaries(w: Width): (r: Vec)
    ensures |r| == if w.Four? then 15 else 3
  {
    if w.Four? then BOUNDARIES4 else BOUNDARIES2
  }

  // ---------- packed codes ----------

  type Byte = bv8

  /** How many whole bytes hold the codes of n coordinates. */
  function PackedLen(w: Width, n: nat): nat {
    if w.Four? then (n + 1) / 2 else (n + 3) / 4
  }

  /** How many codes a packed vector holds. */
  function Held(w: Width, packed: seq<Byte>): nat {
    if w.Four? then 2 * |packed| else 4 * |packed|
  }

  function Nibble(b: Byte, half: nat): (r: nat)
    ensures r < 16
  {
    if half == 0 then (b & 0x0F) as nat else ((b >> 4) & 0x0F) as nat
  }

  function Crumb(b: Byte, quarter: nat): (r: nat)
    ensures r < 4
  {
    if quarter == 0 then (b & 3) as nat
    else if quarter == 1 then ((b >> 2) & 3) as nat
    else if quarter == 2 then ((b >> 4) & 3) as nat
    else ((b >> 6) & 3) as nat
  }

  /** The code of coordinate i. */
  function Code(w: Width, packed: seq<Byte>, i: nat): (r: nat)
    requires i < Held(w, packed)
    ensures r < if w.Four? then 16 else 4
  {
    if w.Four? then Nibble(packed[i / 2], i % 2) else Crumb(packed[i / 4], i % 4)
  }

  /** The packing step `byte |= (code & mask) << shift`. */
  function PutNibble(b: Byte, half: nat, c: nat): Byte
    requires c < 16
  {
    if half == 0 then b | ((c as bv8) & 0x0F) else b | (((c as bv8) & 0x0F) << 4)
  }

  function PutCrumb(b: Byte, quarter: nat, c: nat): Byte
    requires c < 4
  {
    var code := (c as bv8) & 3;
    if quarter == 0 then b | code
    else if quarter == 1 then b | (code << 2)
    else if quarter == 2 then b | (code << 4)
    else b | (code << 6)
  }

  lemma PutNibbleReads(b: Byte, half: nat, c: nat, h: nat)
    requires half < 2 && h < 2 && c < 16 && Nibble(b, half) == 0
    ensures Nibble(PutNibble(b, half, c), h) == if h == half then c else Nibble(b, h)
  {
    NibbleRoundTrip(b, c as bv8);
  }

  lemma NibbleRoundTrip(b: bv8, c: bv8)
    requires c < 16
    ensures b & 0x0F == 0 ==> (b | (c & 0x0F)) & 0x0F == c
    ensures (b >> 4) & 0x0F == 0 ==> ((b | ((c & 0x0F) << 4)) >> 4) & 0x0F == c
    ensures ((b | (c & 0x0F)) >> 4) & 0x0F == (b >> 4) & 0x0F
    ensures (b | ((c & 0x0F) << 4)) & 0x0F == b & 0x0F
  {
  }

  lemma PutCrumbReads(b: Byte, quarter: nat, c: nat, q: nat)
    requires quarter < 4 && q < 4 && c < 4 && Crumb(b, quarter) == 0
    ensures Crumb(PutCrumb(b, quarter, c), q) == if q == quarter then c else Crumb(b, q)
  {
  }

  /** Codes are packed from the low bits up. */
  lemma KnownCodes()
    ensures Nibble(0xA5, 0) == 5 && Nibble(0xA5, 1) == 10
    ensures Crumb(0xE4, 0) == 0 && Crumb(0xE4, 1) == 1 && Crumb(0xE4, 2) == 2 && Crumb(0xE4, 3) == 3
  {
  }

  // ---------- choosing a centroid ----------

  /** Levels with the decision cuts halfway between neighbours, no cut further than m from its levels. */
  predicate Grid(levels: Vec, cuts: Vec, m: real) {
    && |levels| == |cuts| + 1
    && forall i :: 0 <= i < |cuts| ==> GridStep(levels, cuts, m, i)
  }

  predicate GridStep(levels: Vec, cuts: Vec, m: real, i: nat)
    requires |levels| == |cuts| + 1 && i < |cuts|
  {
    levels[i] < cuts[i] && cuts[i] - levels[i] == levels[i + 1] - cuts[i] && cuts[i] - levels[i] <= m
  }

  /** x lies in the cell of level c. */
  predicate InCell(cuts: Vec, x: real, c: nat) {
    && c <= |cuts|
    && (c > 0 ==> cuts[c - 1] <= x)
    && (c < |cuts| ==> x < cuts[c])
  }

  function Abs(x: real): real {
    if x < 0.0 then -x else x
  }

  lemma {:induction false} LevelsIncrease(levels: Vec, cuts: Vec, m: real, i: nat, j: nat)
    requires Grid(levels, cuts, m) && i < j < |levels|
    ensures levels[i] < levels[j]
  {
    assert GridStep(levels, cuts, m, j - 1);
    if i < j - 1 { LevelsIncrease(levels, cuts, m, i, j - 1); }
  }

  /** The level of x's cell is a nearest one. */
  lemma CellIsNearest(levels: Vec, cuts: Vec, m: real, x: real, c: nat, j: nat)
    requires Grid(levels, cuts, m) && InCell(cuts, x, c) && j < |levels|
    ensures Abs(x - levels[c]) <= Abs(x - levels[j])
  {
    if j < c {
      assert GridStep(levels, cuts, m, c - 1);
      if j < c - 1 { LevelsIncrease(levels, cuts, m, j, c - 1); }
    } else if c < j {
      assert GridStep(levels, cuts, m, c);
      if c + 1 < j { LevelsIncrease(levels, cuts, m, c + 1, j); }
    }
  }

  /** Inside the grid's range the error is at most m. */
  lemma CellError(levels: Vec, cuts: Vec, m: real, x: real, c: nat)
    requires Grid(levels, cuts, m) && InCell(cuts, x, c)
    requires levels[0] - m <= x <= levels[|cuts|] + m
    ensures -m <= x - levels[c] <= m
  {
    if c > 0 { assert GridStep(levels, cuts, m, c - 1); }
    if c < |cuts| { assert GridStep(levels, cuts, m, c); }
  }

  /** Half the widest gap between neighbouring centroids. */
  function HalfGap(w: Width): real {
    if w.Four? then 0.2745 else 0.5285
  }

  lemma CentroidGrid(w: Width)
    ensures Grid(Centroids(w), Boundaries(w), HalfGap(w))
    ensures var n := |Boundaries(w)|; Centroids(w)[0] == -Centroids(w)[n]
    ensures Centroids(w)[|Boundaries(w)|] + HalfGap(w) == if w.Four? then 2.4265 else 2.0385
  {
    forall i | 0 <= i < |Boundaries(w)|
      ensures GridStep(Centroids(w), Boundaries(w), HalfGap(w), i)
    {
    }
  }

  lemma ScaledGrid(levels: Vec, cuts: Vec, m: real, sigma: real)
    requires Grid(levels, cuts, m) && sigma > 0.0
    ensures Grid(Scale(levels, sigma), Scale(cuts, sigma), Times(m, sigma))
  {
    forall i | 0 <= i < |cuts|
      ensures GridStep(Scale(levels, sigma), Scale(cuts, sigma), Times(m, sigma), i)
    {
      assert GridStep(levels, cuts, m, i);
      ScaledStep(levels[i], cuts[i], levels[i + 1], m, sigma);
    }
  }

  lemma ScaledStep(a: real, b: real, c: real, m: real, sigma: real)
    requires a < b && b - a == c - b && b - a <= m && sigma > 0.0
    ensures Times(a, sigma) < Times(b, sigma)
    ensures Times(b, sigma) - Times(a, sigma) == Times(c, sigma) - Times(b, sigma) <= Times(m, sigma)
  {
    var d, e := b - a, m - (b - a);
    assert d * sigma > 0.0 && e * sigma >= 0.0;
    assert d * sigma == b * sigma - a * sigma && d * sigma == c * sigma - b * sigma;
    assert e * sigma == m * sigma - d * sigma;
  }

  /** The standard library's binary search, by its contract: any match, else the insertion point. */
  method BinarySearch(cuts: Vec, x: real) returns (found: bool, idx: nat)
    requires forall i, j :: 0 <= i < j < |cuts| ==> cuts[i] < cuts[j]
    ensures found ==> idx < |cuts| && cuts[idx] == x
    ensures !found ==> idx <= |cuts| && (forall j :: 0 <= j < idx ==> cuts[j] < x) && (forall j :: idx <= j < |cuts| ==> x < cuts[j])
  {
    var lo, hi := 0, |cuts|;
    while lo < hi
      invariant 0 <= lo <= hi <= |cuts|
      invariant forall j :: 0 <= j < lo ==> cuts[j] < x
      invariant forall j :: hi <= j < |cuts| ==> x < cuts[j]
    {
      var mid := (lo + hi) / 2;
      if cuts[mid] == x {
        return true, mid;
      } else if cuts[mid] < x {
        lo := mid + 1;
      } else {
        hi := mid;
      }
    }
    return false, lo;
  }

  lemma {:induction false} CutsIncrease(levels: Vec, cuts: Vec, m: real, i: nat, j: nat)
    requires Grid(levels, cuts, m) && i < j < |cuts|
    ensures cuts[i] < cuts[j]
  {
    assert GridStep(levels, cuts, m, i) && GridStep(levels, cuts, m, j);
    if i + 1 < j { LevelsIncrease(levels, cuts, m, i + 1, j); }
  }

  /** The 4-bit engine's choice: a match goes to the upper cell. */
  method Choose4(levels: Vec, cuts: Vec, ghost m: real, x: real) returns (c: nat)
    requires Grid(levels, cuts, m) && |cuts| == 15
    ensures InCell(cuts, x, c)
  {
    forall i, j | 0 <= i < j < |cuts|
      ensures cuts[i] < cuts[j]
    {
      CutsIncrease(levels, cuts, m, i, j);
    }
    var found, idx := BinarySearch(cuts, x);
    if found {
      c := if idx + 1 < 15 then idx + 1 else 15;
    } else {
      c := if idx < 15 then idx else 15;
    }
  }

  /** The 2-bit engine's choice. */
  method Choose2(levels: Vec, cuts: Vec, ghost m: real, x: real) returns (c: nat)
    requires Grid(levels, cuts, m) && |cuts| == 3
    ensures InCell(cuts, x, c)
  {
    c := if x < cuts[0] then 0 else if x < cuts[1] then 1 else if x < cuts[2] then 2 else 3;
  }

  // ---------- quantise ----------

  function Levels(w: Width, sigma: real): (r: Vec)
    ensures |r| == if w.Four? then 16 else 4
  {
    Scale(Centroids(w), sigma)
  }

  function Cuts(w: Width, sigma: real): (r: Vec)
    ensures |r| == if w.Four? then 15 else 3
  {
    Scale(Boundaries(w), sigma)
  }

  lemma EngineGrid(w: Width, sigma: real)
    requires sigma > 0.0
    ensures Grid(Levels(w, sigma), Cuts(w, sigma), Times(HalfGap(w), sigma))
  {
    CentroidGrid(w);
    ScaledGrid(Centroids(w), Boundaries(w), HalfGap(w), sigma);
  }

  /** norm is the length of v that the code computes with a square root. */
  predicate IsNorm(norm: real, v: Vec) {
    norm >= 0.0 && Times(norm, norm) == SumSq(v)
  }

  /** The rotated unit vector whose coordinates are quantised. */
  function RotatedUnit(v: Vec, norm: real, c: real, words: Words): (r: Vec)
    requires norm != 0.0
    ensures |r| == |v|
  {
    Rotate(Scale(v, 1.0 / norm), c, words)
  }

  /** The packed bytes code every coordinate of r by its cell. */
  ghost predicate Coded(w: Width, cuts: Vec, r: Vec, packed: seq<Byte>) {
    && |packed| == PackedLen(w, |r|)
    && forall i :: 0 <= i < |r| ==> InCell(cuts, r[i], Code(w, packed, i))
  }

  /** `packed[i / 2] |= ...` writes code i and leaves the other codes alone. */
  method StoreNibble(bytes: array<Byte>, i: nat, code: nat)
    requires i / 2 < bytes.Length && code < 16 && Nibble(bytes[i / 2], i % 2) == 0
    modifies bytes
    ensures forall j :: 0 <= j < 2 * bytes.Length ==>
      Nibble(bytes[j / 2], j % 2) == if j == i then code else Nibble(old(bytes[j / 2]), j % 2)
  {
    PutNibbleReads(bytes[i / 2], i % 2, code, 0);
    PutNibbleReads(bytes[i / 2], i % 2, code, 1);
    bytes[i / 2] := PutNibble(bytes[i / 2], i % 2, code);
  }

  method StoreCrumb(bytes: array<Byte>, i: nat, code: nat)
    requires i / 4 < bytes.Length && code < 4 && Crumb(bytes[i / 4], i % 4) == 0
    modifies bytes
    ensures forall j :: 0 <= j < 4 * bytes.Length ==>
      Crumb(bytes[j / 4], j % 4) == if j == i then code else Crumb(old(bytes[j / 4]), j % 4)
  {
    PutCrumbReads(bytes[i / 4], i % 4, code, 0);
    PutCrumbReads(bytes[i / 4], i % 4, code, 1);
    PutCrumbReads(bytes[i / 4], i % 4, code, 2);
    PutCrumbReads(bytes[i / 4], i % 4, code, 3);
    bytes[i / 4] := PutCrumb(bytes[i / 4], i % 4, code);
  }

  method Pack4(r: Vec, sigma: real) returns (packed: seq<Byte>)
    requires sigma > 0.0
    ensures Coded(Four, Cuts(Four, sigma), r, packed)
  {
    EngineGrid(Four, sigma);
    var levels, cuts := Levels(Four, sigma), Cuts(Four, sigma);
    var bytes := new Byte[PackedLen(Four, |r|)](_ => 0);
    for i := 0 to |r|
      invariant forall j :: 0 <= j < i ==> InCell(cuts, r[j], Nibble(bytes[j / 2], j % 2))
      invariant forall j :: i <= j < 2 * bytes.Length ==> Nibble(bytes[j / 2], j % 2) == 0
    {
      var code := Choose4(levels, cuts, Times(HalfGap(Four), sigma), r[i]);
      StoreNibble(bytes, i, code);
    }
    packed := bytes[..];
  }

  method Pack2(r: Vec, sigma: real) returns (packed: seq<Byte>)
    requires sigma > 0.0
    ensures Coded(Two, Cuts(Two, sigma), r, packed)
  {
    EngineGrid(Two, sigma);
    var levels, cuts := Levels(Two, sigma), Cuts(Two, sigma);
    var bytes := new Byte[PackedLen(Two, |r|)](_ => 0);
    for i := 0 to |r|
      invariant forall j :: 0 <= j < i ==> InCell(cuts, r[j], Crumb(bytes[j / 4], j % 4))
      invariant forall j :: i <= j < 4 * bytes.Length ==> Crumb(bytes[j / 4], j % 4) == 0
    {
      var code := Choose2(levels, cuts, Times(HalfGap(Two), sigma), r[i]);
      StoreCrumb(bytes, i, code);
    }
    packed := bytes[..];
  }

  /** Normalise, rotate, code and pack; the zero vector gets the fixed middle codes. */
  method Quantize(w: Width, v: Vec, sigma: real, norm: real, c: real, words: Words) returns (packed: seq<Byte>)
    requires |v| >= 8 && sigma > 0.0 && IsNorm(norm, v)
    ensures |packed| == PackedLen(w, |v|)
    ensures norm == 0.0 ==> forall b :: b in packed ==> b == if w.Four? then 0x77 else 0x55
    ensures norm != 0.0 ==> Coded(w, Cuts(w, sigma), RotatedUnit(v, norm, c, words), packed)
  {
    if norm == 0.0 {
      packed := seq(PackedLen(w, |v|), _ => if w.Four? then 0x77 else 0x55);
      return;
    }
    var rotated := new real[|v|](i requires 0 <= i < |v| => v[i]);
    var invNorm := 1.0 / norm;
    for i := 0 to rotated.Length
      invariant forall j :: 0 <= j < i ==> rotated[j] == Times(v[j], invNorm)
      invariant forall j :: i <= j < |v| ==> rotated[j] == v[j]
    {
      rotated[i] := Times(rotated[i], invNorm);
    }
    assert rotated[..] == Scale(v, invNorm);
    RotateInPlace(rotated, c, words);
    if w.Four? {
      packed := Pack4(rotated[..], sigma);
    } else {
      packed := Pack2(rotated[..], sigma);
    }
  }

  // ---------- dequantise ----------

  /** Coordinates the packed bytes cover are decoded; the others keep what the output buffer held. */
  function Decoded(w: Width, sigma: real, norm: real, packed: seq<Byte>, out: Vec): (r: Vec)
    ensures |r| == |out|
    ensures forall i :: 0 <= i < |r| ==>
      r[i] == if i < Held(w, packed) then Times(Levels(w, sigma)[Code(w, packed, i)], norm) else out[i]
  {
    seq(|out|, i requires 0 <= i < |out| =>
      if i < Held(w, packed) then Times(Levels(w, sigma)[Code(w, packed, i)], norm) else out[i])
  }

  function Dequantized(w: Width, sigma: real, norm: real, packed: seq<Byte>, out: Vec, c: real, words: Words): (r: Vec)
    ensures |r| == |out|
  {
    if norm == 0.0 then seq(|out|, _ => 0.0)
    else Unrotate(Decoded(w, sigma, norm, packed, out), c, words)
  }

  /** The first n cells hold the target's values, the others what they held before. */
  predicate DecodedCells(cells: Vec, target: Vec, was: Vec, n: nat) {
    && n <= |cells| == |target| == |was|
    && (forall j :: 0 <= j < n ==> cells[j] == target[j])
    && (forall j :: n <= j < |cells| ==> cells[j] == was[j])
  }

  /** One decoded coordinate. */
  method WriteLevel(out: array<real>, coord: nat, value: real, ghost target: Vec, ghost was: Vec)
    requires coord < out.Length && DecodedCells(out[..], target, was, coord) && value == target[coord]
    modifies out
    ensures DecodedCells(out[..], target, was, coord + 1)
  {
    out[coord] := value;
  }

  lemma WrittenAll(w: Width, sigma: real, norm: real, packed: seq<Byte>, cells: Vec, was: Vec, n: nat)
    requires DecodedCells(cells, Decoded(w, sigma, norm, packed, was), was, n)
    requires n == |cells| || n == Held(w, packed)
    ensures cells == Decoded(w, sigma, norm, packed, was)
  {
  }

  /** The byte-by-byte unpacking loop of the 4-bit engine, leaving once every coordinate is written. */
  method Unpack4(packed: seq<Byte>, sigma: real, norm: real, out: array<real>)
    requires out.Length > 0
    modifies out
    ensures out[..] == Decoded(Four, sigma, norm, packed, old(out[..]))
  {
    var levels := Levels(Four, sigma);
    ghost var was := out[..];
    ghost var target := Decoded(Four, sigma, norm, packed, was);
    var coord := 0;
    for b := 0 to |packed|
      invariant coord == 2 * b < out.Length
      invariant DecodedCells(out[..], target, was, coord)
    {
      WriteLevel(out, coord, Times(levels[Nibble(packed[b], 0)], norm), target, was);
      coord := coord + 1;
      if coord >= out.Length { break; }
      WriteLevel(out, coord, Times(levels[Nibble(packed[b], 1)], norm), target, was);
      coord := coord + 1;
      if coord >= out.Length { break; }
    }
    WrittenAll(Four, sigma, norm, packed, out[..], was, coord);
  }

  method Unpack2(packed: seq<Byte>, sigma: real, norm: real, out: array<real>)
    requires out.Length > 0
    modifies out
    ensures out[..] == Decoded(Two, sigma, norm, packed, old(out[..]))
  {
    var levels := Levels(Two, sigma);
    ghost var was := out[..];
    ghost var target := Decoded(Two, sigma, norm, packed, was);
    var coord := 0;
    for b := 0 to |packed|
      invariant coord == 4 * b < out.Length
      invariant DecodedCells(out[..], target, was, coord)
    {
      for quarter := 0 to 4
        invariant coord == 4 * b + quarter < out.Length
        invariant DecodedCells(out[..], target, was, coord)
      {
        WriteLevel(out, coord, Times(levels[Crumb(packed[b], quarter)], norm), target, was);
        coord := coord + 1;
        if coord >= out.Length {
          WrittenAll(Two, sigma, norm, packed, out[..], was, coord);
          return;
        }
      }
    }
    WrittenAll(Two, sigma, norm, packed, out[..], was, coord);
  }

  method Dequantize(w: Width, sigma: real, norm: real, packed: seq<Byte>, out: array<real>, c: real, words: Words)
    requires out.Length >= 8
    modifies out
    ensures out[..] == Dequantized(w, sigma, norm, packed, old(out[..]), c, words)
  {
    if norm == 0.0 {
      for i := 0 to out.Length
        invariant forall j :: 0 <= j < i ==> out[j] == 0.0
      {
        out[i] := 0.0;
      }
      return;
    }
    if w.Four? {
      Unpack4(packed, sigma, norm, out);
    } else {
      Unpack2(packed, sigma, norm, out);
    }
    UnrotateInPlace(out, c, words);
  }

  // ---------- scoring without unpacking ----------

  /** The table cell for coordinate i and code k. */
  function LutAt(w: Width, i: nat, k: nat): nat {
    if w.Four? then i * 16 + k else i * 4 + k
  }

  /** Row i of the table holds the products of q with every level. */
  predicate Row(w: Width, lut: Vec, levels: Vec, i: nat, q: real) {
    && |levels| == (if w.Four? then 16 else 4) && LutAt(w, i + 1, 0) <= |lut|
    && forall k :: 0 <= k < |levels| ==> lut[LutAt(w, i, k)] == Times(q, levels[k])
  }

  predicate IsLut(w: Width, lut: Vec, levels: Vec, rotated: Vec) {
    && |lut| == LutAt(w, |rotated|, 0)
    && forall i :: 0 <= i < |rotated| ==> Row(w, lut, levels, i, rotated[i])
  }

  /** Filling one row of 16 or 4 products. */
  method FillRow(w: Width, lut: array<real>, levels: Vec, i: nat, q: real)
    requires |levels| == if w.Four? then 16 else 4
    requires LutAt(w, i + 1, 0) <= lut.Length
    modifies lut
    ensures forall p :: 0 <= p < lut.Length && !(LutAt(w, i, 0) <= p < LutAt(w, i + 1, 0)) ==> lut[p] == old(lut[..])[p]
    ensures Row(w, lut[..], levels, i, q)
  {
    for k := 0 to |levels|
      invariant forall p :: 0 <= p < lut.Length && !(LutAt(w, i, 0) <= p < LutAt(w, i + 1, 0)) ==> lut[p] == old(lut[..])[p]
      invariant forall j :: 0 <= j < k ==> lut[LutAt(w, i, j)] == Times(q, levels[j])
    {
      lut[LutAt(w, i, k)] := Times(q, levels[k]);
    }
  }

  lemma RowKept(w: Width, was: Vec, now: Vec, levels: Vec, i: nat, j: nat, q: real)
    requires j < i && |was| == |now| && Row(w, was, levels, j, q)
    requires forall p :: 0 <= p < |now| && !(LutAt(w, i, 0) <= p < LutAt(w, i + 1, 0)) ==> now[p] == was[p]
    ensures Row(w, now, levels, j, q)
  {
    forall k | 0 <= k < |levels|
      ensures now[LutAt(w, j, k)] == Times(q, levels[k])
    {
      assert was[LutAt(w, j, k)] == Times(q, levels[k]);
    }
  }

  method BuildQueryLut(w: Width, query: Vec, sigma: real, c: real, words: Words) returns (table: Vec)
    ensures IsLut(w, table, Levels(w, sigma), Rotate(query, c, words))
  {
    var rotatedQuery := new real[|query|](i requires 0 <= i < |query| => query[i]);
    assert rotatedQuery[..] == query;
    RotateInPlace(rotatedQuery, c, words);
    table := FillLut(w, rotatedQuery[..], Levels(w, sigma));
  }

  method FillLut(w: Width, rotated: Vec, levels: Vec) returns (table: Vec)
    requires |levels| == if w.Four? then 16 else 4
    ensures IsLut(w, table, levels, rotated)
  {
    var lut := new real[LutAt(w, |rotated|, 0)](_ => 0.0);
    for i := 0 to |rotated|
      invariant forall j :: 0 <= j < i ==> Row(w, lut[..], levels, j, rotated[j])
    {
      ghost var was := lut[..];
      FillRow(w, lut, levels, i, rotated[i]);
      forall j | 0 <= j < i
        ensures Row(w, lut[..], levels, j, rotated[j])
      {
        RowKept(w, was, lut[..], levels, i, j, rotated[j]);
      }
    }
    table := lut[..];
  }

  /** The sum of the table cells selected by the first n codes. */
  function LutSum(w: Width, lut: Vec, packed: seq<Byte>, n: nat): real
    requires n <= Held(w, packed) && LutAt(w, n, 0) <= |lut|
  {
    if n == 0 then 0.0 else LutSum(w, lut, packed, n - 1) + lut[LutAt(w, n - 1, Code(w, packed, n - 1))]
  }

  /** How many of dim coordinates the packed bytes cover. */
  function Covered(w: Width, packed: seq<Byte>, dim: nat): nat {
    if Held(w, packed) <= dim then Held(w, packed) else dim
  }

  /** One table cell added to the running sum. */
  method AddEntry(w: Width, lut: Vec, packed: seq<Byte>, coord: nat, code: nat, dot: real) returns (sum: real)
    requires coord < Held(w, packed) && LutAt(w, coord + 1, 0) <= |lut| && code == Code(w, packed, coord)
    requires dot == LutSum(w, lut, packed, coord)
    ensures sum == LutSum(w, lut, packed, coord + 1)
  {
    sum := dot + lut[LutAt(w, coord, code)];
  }

  method ScoreQueryLut4(lut: Vec, norm: real, packed: seq<Byte>, dim: nat) returns (score: real)
    requires dim > 0 && |lut| == LutAt(Four, dim, 0)
    ensures score == if norm == 0.0 then 0.0 else Times(LutSum(Four, lut, packed, Covered(Four, packed, dim)), norm)
  {
    if norm == 0.0 { return 0.0; }
    var dot := 0.0;
    var coord := 0;
    for b := 0 to |packed|
      invariant coord == 2 * b < dim
      invariant dot == LutSum(Four, lut, packed, coord)
    {
      dot := AddEntry(Four, lut, packed, coord, Nibble(packed[b], 0), dot);
      coord := coord + 1;
      if coord >= dim { break; }
      dot := AddEntry(Four, lut, packed, coord, Nibble(packed[b], 1), dot);
      coord := coord + 1;
      if coord >= dim { break; }
    }
    score := Times(dot, norm);
  }

  method ScoreQueryLut2(lut: Vec, norm: real, packed: seq<Byte>, dim: nat) returns (score: real)
    requires dim > 0 && |lut| == LutAt(Two, dim, 0)
    ensures score == if norm == 0.0 then 0.0 else Times(LutSum(Two, lut, packed, Covered(Two, packed, dim)), norm)
  {
    if norm == 0.0 { return 0.0; }
    var dot := 0.0;
    var coord := 0;
    for b := 0 to |packed|
      invariant coord == 4 * b < dim
      invariant dot == LutSum(Two, lut, packed, coord)
    {
      for quarter := 0 to 4
        invariant coord == 4 * b + quarter < dim
        invariant dot == LutSum(Two, lut, packed, coord)
      {
        dot := AddEntry(Two, lut, packed, coord, Crumb(packed[b], quarter), dot);
        coord := coord + 1;
        if coord >= dim { return Times(dot, norm); }
      }
    }
    score := Times(dot, norm);
  }

  // ---------- what the score means ----------

  lemma LutTerm(w: Width, levels: Vec, norm: real, packed: seq<Byte>, lut: Vec, r: Vec, i: nat)
    requires i < |r| && i < Held(w, packed) && IsLut(w, lut, levels, r) && Code(w, packed, i) < |levels|
    ensures Times(r[i], Times(levels[Code(w, packed, i)], norm)) == Times(lut[LutAt(w, i, Code(w, packed, i))], norm)
  {
    assert Row(w, lut, levels, i, r[i]);
    TimesRotate(r[i], levels[Code(w, packed, i)], norm);
  }

  /** y[i] is the level of code i, scaled by the norm. */
  predicate LevelScaled(w: Width, levels: Vec, norm: real, packed: seq<Byte>, y: Vec, i: nat)
    requires i < Held(w, packed)
  {
    i < |y| && Code(w, packed, i) < |levels| && y[i] == Times(levels[Code(w, packed, i)], norm)
  }

  /** The products of r with decoded coordinates y add up to the table sum times the norm. */
  lemma {:induction false} LutSumIsDot(w: Width, levels: Vec, norm: real, packed: seq<Byte>, lut: Vec, r: Vec, y: Vec, n: nat)
    requires |r| == |y| && n <= |r| && n <= Held(w, packed) && IsLut(w, lut, levels, r)
    requires forall i: nat :: i < n ==> LevelScaled(w, levels, norm, packed, y, i)
    ensures DotTo(r, y, n) == Times(LutSum(w, lut, packed, n), norm)
  {
    if n > 0 {
      var m := n - 1;
      LutSumIsDot(w, levels, norm, packed, lut, r, y, m);
      LutSumStep(w, levels, norm, packed, lut, r, y, m, n);
    }
  }

  lemma LutSumStep(w: Width, levels: Vec, norm: real, packed: seq<Byte>, lut: Vec, r: Vec, y: Vec, m: nat, n: nat)
    requires |r| == |y| && n == m + 1 <= |r| && n <= Held(w, packed) && IsLut(w, lut, levels, r)
    requires LevelScaled(w, levels, norm, packed, y, m) && DotTo(r, y, m) == Times(LutSum(w, lut, packed, m), norm)
    ensures DotTo(r, y, n) == Times(LutSum(w, lut, packed, n), norm)
  {
    var entry := LutNext(w, lut, packed, m, n);
    LutTerm(w, levels, norm, packed, lut, r, m);
    AddProduct(DotTo(r, y, m), Times(r[m], y[m]), LutSum(w, lut, packed, m), entry, norm);
  }

  lemma LutNext(w: Width, lut: Vec, packed: seq<Byte>, m: nat, n: nat) returns (entry: real)
    requires n == m + 1 <= Held(w, packed) && LutAt(w, n, 0) <= |lut|
    ensures entry == lut[LutAt(w, m, Code(w, packed, m))] && LutSum(w, lut, packed, n) == LutSum(w, lut, packed, m) + entry
  {
    entry := lut[LutAt(w, m, Code(w, packed, m))];
  }

  lemma AddProduct(dot: real, product: real, before: real, entry: real, norm: real)
    requires dot == Times(before, norm) && product == Times(entry, norm)
    ensures dot + product == Times(before + entry, norm)
  {
    TimesAdd(before, entry, norm);
  }

  /** Every coordinate's code names a nearest level: no level is closer. */
  lemma CodesAreNearest(w: Width, sigma: real, r: Vec, packed: seq<Byte>, i: nat, j: nat)
    requires sigma > 0.0 && Coded(w, Cuts(w, sigma), r, packed) && i < |r| && j < |Levels(w, sigma)|
    ensures Abs(r[i] - Levels(w, sigma)[Code(w, packed, i)]) <= Abs(r[i] - Levels(w, sigma)[j])
  {
    EngineGrid(w, sigma);
    CellIsNearest(Levels(w, sigma), Cuts(w, sigma), Times(HalfGap(w), sigma), r[i], Code(w, packed, i), j);
  }

  /** What coordinates n.. contribute to a dot product. */
  function TailDot(a: Vec, b: Vec, n: nat): real
    requires n <= |a| == |b|
  {
    Dot(a, b) - DotTo(a, b, n)
  }

  /** The table score is the dot product with the dequantised vector, but for the coordinates the packed bytes do not reach:
      those dequantise to whatever the output buffer held before. */
  lemma ScoreIsDotButTail(w: Width, query: Vec, sigma: real, norm: real, packed: seq<Byte>, out: Vec, lut: Vec, c: real, words: Words)
    requires |out| == |query| && RightScale(c, |query|) && norm != 0.0
    requires IsLut(w, lut, Levels(w, sigma), Rotate(query, c, words))
    ensures var n := Covered(w, packed, |query|);
      Dot(query, Dequantized(w, sigma, norm, packed, out, c, words))
      == Times(LutSum(w, lut, packed, n), norm) + TailDot(Rotate(query, c, words), Decoded(w, sigma, norm, packed, out), n)
  {
    var n := Covered(w, packed, |query|);
    var y := Decoded(w, sigma, norm, packed, out);
    var r := Rotate(query, c, words);
    RotationDot(query, Unrotate(y, c, words), c, words);
    RotationInverse(y, c, words);
    forall i: nat | i < n ensures LevelScaled(w, Levels(w, sigma), norm, packed, y, i) {
    }
    LutSumIsDot(w, Levels(w, sigma), norm, packed, lut, r, y, n);
  }

  lemma {:induction false} ZeroTail(a: Vec, b: Vec, n: nat, m: nat)
    requires n <= m <= |a| == |b|
    requires forall i :: n <= i < m ==> b[i] == 0.0
    ensures DotTo(a, b, m) == DotTo(a, b, n)
  {
    if n < m { ZeroTail(a, b, n, m - 1); }
  }

  /** The table score equals the dot product with the dequantised vector exactly, for every query, norm and code word,
      whenever the codes cover the vector or the rest of the output buffer was zero. */
  lemma ScoreIsDot(w: Width, query: Vec, sigma: real, norm: real, packed: seq<Byte>, out: Vec, lut: Vec, c: real, words: Words)
    requires |out| == |query| && RightScale(c, |query|)
    requires IsLut(w, lut, Levels(w, sigma), Rotate(query, c, words))
    requires norm == 0.0 || forall i :: Held(w, packed) <= i < |out| ==> out[i] == 0.0
    ensures Dot(query, Dequantized(w, sigma, norm, packed, out, c, words))
      == if norm == 0.0 then 0.0 else Times(LutSum(w, lut, packed, Covered(w, packed, |query|)), norm)
  {
    var n := Covered(w, packed, |query|);
    if norm == 0.0 {
      ZeroTail(query, Dequantized(w, sigma, norm, packed, out, c, words), 0, |query|);
    } else {
      ScoreIsDotButTail(w, query, sigma, norm, packed, out, lut, c, words);
      ZeroTail(Rotate(query, c, words), Decoded(w, sigma, norm, packed, out), n, |query|);
    }
  }

  /** What scoring returns for a query's table. */
  function Score(w: Width, lut: Vec, norm: real, packed: seq<Byte>, dim: nat): real
    requires |lut| == LutAt(w, dim, 0)
  {
    if norm == 0.0 then 0.0 else Times(LutSum(w, lut, packed, Covered(w, packed, dim)), norm)
  }

  /** The table score is the dot product with the dequantised vector, for this query. */
  predicate Exactly(w: Width, query: Vec, sigma: real, norm: real, packed: seq<Byte>, out: Vec, lut: Vec, c: real, words: Words) {
    && |out| == |query| && |lut| == LutAt(w, |query|, 0)
    && Dot(query, Dequantized(w, sigma, norm, packed, out, c, words)) == Score(w, lut, norm, packed, |query|)
  }

  predicate TailIsZero(w: Width, packed: seq<Byte>, out: Vec) {
    forall i :: Held(w, packed) <= i < |out| ==> out[i] == 0.0
  }

  /** Every rotated query has a table. */
  lemma {:induction false} SomeLut(w: Width, levels: Vec, rotated: Vec) returns (lut: Vec)
    requires |levels| == if w.Four? then 16 else 4
    ensures IsLut(w, lut, levels, rotated)
  {
    if |rotated| == 0 {
      lut := [];
    } else {
      var n := |rotated| - 1;
      var before := SomeLut(w, levels, rotated[..n]);
      lut := before + seq(|levels|, k requires 0 <= k < |levels| => Times(rotated[n], levels[k]));
      forall i | 0 <= i < n ensures Row(w, lut, levels, i, rotated[i]) {
        assert Row(w, before, levels, i, rotated[..n][i]);
      }
    }
  }

  /** The coordinates from n on, zero before. */
  function From(out: Vec, n: nat): (r: Vec)
    ensures |r| == |out|
  {
    seq(|out|, i requires 0 <= i < |out| => if i < n then 0.0 else out[i])
  }

  lemma {:induction false} FromDot(out: Vec, y: Vec, n: nat, m: nat, k: nat)
    requires n <= m <= |out| == |y| && (forall i :: n <= i < |out| ==> y[i] == out[i])
    requires n <= k < m && out[k] != 0.0
    ensures DotTo(From(out, n), y, m) > DotTo(From(out, n), y, n)
    decreases m
  {
    SquareSign(out[m - 1]);
    if k < m - 1 {
      FromDot(out, y, n, m - 1, k);
    } else {
      FromDotAtLeast(out, y, n, m - 1);
    }
  }

  lemma {:induction false} FromDotAtLeast(out: Vec, y: Vec, n: nat, m: nat)
    requires n <= m <= |out| == |y| && (forall i :: n <= i < |out| ==> y[i] == out[i])
    ensures DotTo(From(out, n), y, m) >= DotTo(From(out, n), y, n)
  {
    if n < m {
      SquareSign(out[m - 1]);
      FromDotAtLeast(out, y, n, m - 1);
    }
  }

  lemma SquareSign(x: real)
    ensures Times(x, x) >= 0.0 && (x != 0.0 ==> Times(x, x) > 0.0)
  {
    if x > 0.0 {
      PositiveProduct(x, x);
    } else if x < 0.0 {
      var y := -x;
      PositiveProduct(y, y);
      Opposite(x, y);
      assert Times(x, x) > 0.0;
    }
  }

  lemma Opposite(x: real, y: real)
    requires y == -x
    ensures Times(x, x) == Times(y, y)
  {
    assert (x + y) * (x - y) == x * x - y * y;
  }

  lemma PositiveProduct(a: real, b: real)
    requires a > 0.0 && b > 0.0
    ensures Times(a, b) > 0.0
  {
  }

  /** A query the stale cells show on. */
  lemma StaleTailShows(w: Width, sigma: real, norm: real, packed: seq<Byte>, out: Vec, c: real, words: Words, k: nat) returns (query: Vec, lut: Vec)
    requires RightScale(c, |out|) && norm != 0.0 && Held(w, packed) <= k < |out| && out[k] != 0.0
    ensures |query| == |out| && IsLut(w, lut, Levels(w, sigma), Rotate(query, c, words))
    ensures !Exactly(w, query, sigma, norm, packed, out, lut, c, words)
  {
    var n := Held(w, packed);
    var e, y := From(out, n), Decoded(w, sigma, norm, packed, out);
    query := Unrotate(e, c, words);
    RotationInverse(e, c, words);
    lut := SomeLut(w, Levels(w, sigma), e);
    ScoreIsDotButTail(w, query, sigma, norm, packed, out, lut, c, words);
    FromDot(out, y, n, |out|, k);
    assert Covered(w, packed, |query|) == n;
    assert TailDot(e, y, n) > 0.0;
    assert Dot(query, Dequantized(w, sigma, norm, packed, out, c, words)) != Score(w, lut, norm, packed, |query|);
  }

  /**
   * The exact condition, for every query at once: scoring is the dot product if and only if the norm is zero or the
   * cells that the codes do not cover were zero - which they are when the codes cover the whole vector.
   */
  lemma ScoreIsDotIff(w: Width, sigma: real, norm: real, packed: seq<Byte>, out: Vec, c: real, words: Words)
    requires RightScale(c, |out|)
    ensures (forall query, lut | |query| == |out| && IsLut(w, lut, Levels(w, sigma), Rotate(query, c, words)) ::
               Exactly(w, query, sigma, norm, packed, out, lut, c, words))
      <==> (norm == 0.0 || TailIsZero(w, packed, out))
  {
    if norm == 0.0 || TailIsZero(w, packed, out) {
      forall query, lut | |query| == |out| && IsLut(w, lut, Levels(w, sigma), Rotate(query, c, words))
        ensures Exactly(w, query, sigma, norm, packed, out, lut, c, words)
      {
        ScoreIsDot(w, query, sigma, norm, packed, out, lut, c, words);
      }
    } else {
      var k :| Held(w, packed) <= k < |out| && out[k] != 0.0;
      var query, lut := StaleTailShows(w, sigma, norm, packed, out, c, words, k);
    }
  }

  // ---------- how far off the reconstruction is ----------

  /** No coordinate of the rotated unit vector lies outside the centroid range by more than half a gap. */
  predicate InRange(w: Width, sigma: real, r: Vec) {
    var bound := if w.Four? then 2.4265 else 2.0385;
    forall i :: 0 <= i < |r| ==> -Times(bound, sigma) <= r[i] <= Times(bound, sigma)
  }

  /** The levels the codes select, before scaling by the norm. */
  function Chosen(w: Width, sigma: real, packed: seq<Byte>, dim: nat): (r: Vec)
    requires dim <= Held(w, packed)
    ensures |r| == dim && forall i :: 0 <= i < dim ==> r[i] == Levels(w, sigma)[Code(w, packed, i)]
  {
    seq(dim, i requires 0 <= i < dim => Levels(w, sigma)[Code(w, packed, i)])
  }

  lemma ChosenError(w: Width, sigma: real, r: Vec, packed: seq<Byte>)
    requires sigma > 0.0 && Coded(w, Cuts(w, sigma), r, packed) && InRange(w, sigma, r)
    ensures WithinBudget(SumSq(Sub(r, Chosen(w, sigma, packed, |r|))), HalfGap(w), sigma, |r|)
  {
    var levels, cuts, m := Levels(w, sigma), Cuts(w, sigma), Times(HalfGap(w), sigma);
    EngineGrid(w, sigma);
    CentroidGrid(w);
    var top := Centroids(w)[|Boundaries(w)|];
    TimesAdd(top, HalfGap(w), sigma);
    TimesNegate(top, sigma);
    forall i | 0 <= i < |r|
      ensures -m <= Sub(r, Chosen(w, sigma, packed, |r|))[i] <= m
    {
      CellError(levels, cuts, m, r[i], Code(w, packed, i));
    }
    SquaresBound(Sub(r, Chosen(w, sigma, packed, |r|)), m, |r|);
  }

  lemma UnitScale(v: Vec, norm: real)
    requires norm != 0.0
    ensures Scale(Scale(v, 1.0 / norm), norm) == v
  {
    forall i | 0 <= i < |v|
      ensures Scale(Scale(v, 1.0 / norm), norm)[i] == v[i]
    {
      UnitTimes(v[i], norm);
    }
  }

  lemma UnitTimes(x: real, n: real)
    requires n != 0.0
    ensures Times(Times(x, 1.0 / n), n) == x
  {
    var r := 1.0 / n;
    assert r * n == 1.0;
    assert (x * r) * n == x * (r * n);
  }

  /** In rotated coordinates the reconstruction error is the norm times the coordinate errors. */
  lemma RotatedError(w: Width, v: Vec, sigma: real, norm: real, packed: seq<Byte>, out: Vec, c: real, words: Words)
    requires |out| == |v| <= Held(w, packed) && norm != 0.0 && RightScale(c, |v|)
    ensures var r, d := RotatedUnit(v, norm, c, words), Chosen(w, sigma, packed, |v|);
      Rotate(Sub(v, Dequantized(w, sigma, norm, packed, out, c, words)), c, words) == Scale(Sub(r, d), norm)
  {
    var r, d := RotatedUnit(v, norm, c, words), Chosen(w, sigma, packed, |v|);
    var y := Decoded(w, sigma, norm, packed, out);
    assert y == Scale(d, norm);
    UnitScale(v, norm);
    RotationLinear(Scale(v, 1.0 / norm), v, c, words, norm);
    RotationLinear(v, Unrotate(y, c, words), c, words, norm);
    RotationInverse(y, c, words);
    ScaleLinear(r, d, norm, norm);
  }

  /** So its squared length is the squared norm times the squared coordinate error. */
  lemma SquaredError(w: Width, v: Vec, sigma: real, norm: real, packed: seq<Byte>, out: Vec, c: real, words: Words)
    requires |out| == |v| <= Held(w, packed) && norm != 0.0 && RightScale(c, |v|)
    ensures var x := Sub(RotatedUnit(v, norm, c, words), Chosen(w, sigma, packed, |v|));
      SumSq(Sub(v, Dequantized(w, sigma, norm, packed, out, c, words))) == Times(Times(SumSq(x), norm), norm)
  {
    var x := Sub(RotatedUnit(v, norm, c, words), Chosen(w, sigma, packed, |v|));
    var e := Sub(v, Dequantized(w, sigma, norm, packed, out, c, words));
    RotatedError(w, v, sigma, norm, packed, out, c, words);
    RotationDot(e, e, c, words);
    DotScale(x, Scale(x, norm), norm);
    DotScale(x, x, norm);
  }

  /** sigma is 1 / sqrt(dim). */
  predicate IsSigma(sigma: real, dim: nat) {
    sigma > 0.0 && sigma * sigma * dim as real == 1.0
  }

  /** A squared coordinate error within m * sigma per coordinate. */
  predicate WithinBudget(x: real, m: real, sigma: real, dim: nat) {
    0.0 <= x <= Times(dim as real, Times(Times(m, sigma), Times(m, sigma)))
  }

  lemma ErrorBudget(x: real, norm2: real, norm: real, m: real, sigma: real, n: nat)
    requires WithinBudget(x, m, sigma, n)
    requires Times(norm, norm) == norm2 && IsSigma(sigma, n)
    ensures Times(Times(x, norm), norm) <= Times(Times(m, m), norm2)
  {
    var dim := n as real;
    assert dim * ((m * sigma) * (m * sigma)) == m * m * (sigma * sigma * dim);
    var slack := m * m - x;
    assert slack >= 0.0;
    assert norm * norm >= 0.0;
    assert slack * (norm * norm) >= 0.0;
    assert slack * (norm * norm) == m * m * (norm * norm) - x * norm * norm;
  }

  /** If no rotated coordinate is out of range, the squared reconstruction error is at most HalfGap squared
      (0.2745^2 for 4 bits, 0.5285^2 for 2 bits) times the squared length of the vector. */
  lemma ReconstructionError(w: Width, v: Vec, sigma: real, norm: real, packed: seq<Byte>, out: Vec, c: real, words: Words)
    requires |out| == |v| && RightScale(c, |v|) && IsNorm(norm, v) && norm != 0.0
    requires IsSigma(sigma, |v|)
    requires Coded(w, Cuts(w, sigma), RotatedUnit(v, norm, c, words), packed)
    requires InRange(w, sigma, RotatedUnit(v, norm, c, words))
    ensures SumSq(Sub(v, Dequantized(w, sigma, norm, packed, out, c, words))) <= Times(Times(HalfGap(w), HalfGap(w)), SumSq(v))
  {
    var r := RotatedUnit(v, norm, c, words);
    ChosenError(w, sigma, r, packed);
    SquaredError(w, v, sigma, norm, packed, out, c, words);
    ErrorBudget(SumSq(Sub(r, Chosen(w, sigma, packed, |v|))), SumSq(v), norm, HalfGap(w), sigma, |v|);
  }
}
