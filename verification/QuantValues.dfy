/** The numbers in the quantised formats, byte by byte and value by value. */
module QuantValues {
  import opened Bytes
  import opened Common
  import opened Hadamard
  import opened QuantTypes
  import opened QuantBlocks
  import opened Vectors

  // ---------- floats ----------

  lemma PowersOfTwo()
    ensures Pow2(4) == 16 && Pow2(5) == 32 && Pow2(9) == 512 && Pow2(10) == 1024 && Pow2(18) == 0x4_0000 && Pow2(23) == 0x80_0000
    ensures Pow2(24) == 0x100_0000
  {
    assert Pow2(8) == 256 && Pow2(12) == 4096 && Pow2(16) == 0x1_0000 && Pow2(20) == 0x10_0000;
  }

  /** The exponents of the examples below. */
  lemma Exponents()
    ensures Exponent(15, 25) == 1.0 / 1024.0 && Exponent(16, 25) == 1.0 / 512.0 && Exponent(30, 25) == 32.0
    ensures Exponent(1, 25) == 1.0 / 16777216.0
    ensures Exponent(127, 150) == 1.0 / 8388608.0 && Exponent(132, 150) == 1.0 / 262144.0 && Exponent(126, 150) == 1.0 / 16777216.0
  {
    PowersOfTwo();
  }

  lemma HalfFields(lo: byte, hi: byte, sign: nat, exponent: nat, fraction: nat)
    requires sign == hi / 128 && exponent == hi / 4 % 32 && fraction == hi % 4 * 256 + lo
    ensures Half(lo, hi) == Float(sign, exponent, fraction, 1024, 25)
  {
  }

  /** One, minus two, the greatest finite and the least positive number in half precision. */
  lemma KnownHalves()
    ensures Half(0x00, 0x3C) == 1.0 && Half(0x00, 0xC0) == -2.0
    ensures Half(0xFF, 0x7B) == 65504.0 && Half(0x01, 0x00) == 1.0 / 16777216.0
  {
    Exponents();
    HalfFields(0x00, 0x3C, 0, 15, 0);
    HalfFields(0x00, 0xC0, 1, 16, 0);
    HalfFields(0xFF, 0x7B, 0, 30, 1023);
    HalfFields(0x01, 0x00, 0, 0, 1);
    assert Times(1024.0, 1.0 / 1024.0) == 1.0 && Times(1024.0, 1.0 / 512.0) == 2.0;
    assert Times(2047.0, 32.0) == 65504.0 && Times(1.0, 1.0 / 16777216.0) == 1.0 / 16777216.0;
  }

  lemma SingleFields(b0: byte, b1: byte, b2: byte, b3: byte, sign: nat, exponent: nat, fraction: nat)
    requires sign == b3 / 128 && exponent == b3 % 128 * 2 + b2 / 128 && fraction == b2 % 128 * 0x1_0000 + b1 * 256 + b0
    ensures Single(b0, b1, b2, b3) == Float(sign, exponent, fraction, 0x80_0000, 150)
  {
  }

  /** One, its successor, 42 and minus one half in single precision; bfloat16 is its upper half. */
  lemma KnownSingles()
    ensures Single(0x00, 0x00, 0x80, 0x3F) == 1.0 && Single(0x01, 0x00, 0x80, 0x3F) == 1.0 + 1.0 / 8388608.0
    ensures Single(0x00, 0x00, 0x28, 0x42) == 42.0 && Single(0x00, 0x00, 0x00, 0xBF) == -0.5
    ensures Brain(0x28, 0x42) == 42.0
  {
    Exponents();
    SingleFields(0x00, 0x00, 0x80, 0x3F, 0, 127, 0);
    SingleFields(0x01, 0x00, 0x80, 0x3F, 0, 127, 1);
    SingleFields(0x00, 0x00, 0x28, 0x42, 0, 132, 0x28_0000);
    SingleFields(0x00, 0x00, 0x00, 0xBF, 1, 126, 0);
    assert Times(8388608.0, 1.0 / 8388608.0) == 1.0 && Times(8388609.0, 1.0 / 8388608.0) == 1.0 + 1.0 / 8388608.0;
    assert Times(11010048.0, 1.0 / 262144.0) == 42.0 && Times(8388608.0, 1.0 / 16777216.0) == 0.5;
  }

  /** Bytes from 128 on are negative. */
  lemma SignedIs(x: byte)
    ensures -128 <= Signed(x) < 128 && (Signed(x) - x) % 256 == 0
  {
  }

  // ---------- the sizes of blocks ----------

  /** The bytes of a block, field by field: scales and offsets first, then the high bits, then the codes. */
  lemma BlockBytes()
    ensures TypeSize(2) == Some(2 + 32 / 2) && TypeSize(3) == Some(2 + 2 + 32 / 2)
    ensures TypeSize(6) == Some(2 + 32 / 8 + 32 / 2) && TypeSize(7) == Some(2 + 2 + 32 / 8 + 32 / 2)
    ensures TypeSize(8) == Some(2 + 32) && TypeSize(9) == Some(2 + 2 + 32)
    ensures TypeSize(10) == Some(256 / 16 + 256 / 4 + 2 + 2) && TypeSize(11) == Some(256 / 8 + 256 / 4 + 12 + 2)
    ensures TypeSize(12) == Some(2 + 2 + 12 + 256 / 2) && TypeSize(13) == Some(2 + 2 + 12 + 256 / 8 + 256 / 2)
    ensures TypeSize(14) == Some(256 / 2 + 256 / 4 + 256 / 16 + 2) && TypeSize(15) == Some(4 + 256 + 2 * (256 / 16))
    ensures TypeSize(24) == Some(8 / 8) && TypeSize(25) == Some(16 / 8) && TypeSize(26) == Some(32 / 8) && TypeSize(27) == Some(64 / 8)
    ensures TypeSize(0) == Some(32 / 8) && TypeSize(28) == Some(64 / 8) && TypeSize(1) == TypeSize(30) == Some(16 / 8)
    ensures forall kind :: kind in {0, 1, 24, 25, 26, 27, 28, 30} ==> BlockSize(kind) == Some(1)
    ensures forall kind :: 16 <= kind <= 23 || kind == 29 ==> TypeSize(kind) == None && BlockSize(kind) == None
    ensures forall kind :: kind in {2, 3, 6, 7, 8, 9} ==> BlockSize(kind) == Some(32)
    ensures forall kind :: kind in {10, 11, 12, 13, 14, 15} ==> BlockSize(kind) == Some(256)
  {
  }

  // ---------- blocks ----------

  lemma GroupAdded(block: Data, j: nat, next: nat)
    requires |block| == 144 && j < next <= 4 && next == j + 1
    ensures Values4(block, next) == Values4(block, j) + GroupValues4(block, j)
  {
  }

  lemma Joined(whole: Vec, front: Vec, back: Vec, i: nat, k: nat)
    requires whole == front + back && k < |back| && i == |front| + k
    ensures i < |whole| && whole[i] == back[k]
  {
  }

  lemma {:induction false} ValuesGrow(block: Data, j: nat, n: nat, next: nat, k: nat)
    requires |block| == 144 && j <= n < 4 && next == n + 1 && k < 64
    ensures Values4(block, next)[64 * j + k] == GroupValues4(block, j)[k]
    decreases n
  {
    GroupAdded(block, n, next);
    if j < n {
      ValuesGrow(block, j, n - 1, n, k);
    } else {
      Joined(Values4(block, next), Values4(block, n), GroupValues4(block, n), 64 * j + k, k);
    }
  }

  lemma ValueOfGroup(block: Data, j: nat, n: nat, k: nat)
    requires |block| == 144 && j < n <= 4 && k < 64
    ensures Values4(block, n)[64 * j + k] == GroupValues4(block, j)[k]
  {
    ValuesGrow(block, j, n - 1, n, k);
  }

  lemma GroupCell(block: Data, j: nat, half: nat, l: nat, s: nat)
    requires |block| == 144 && j < 4 && half < 2 && l < 32 && s == 2 * j + half
    ensures var q: int := block[16 + 32 * j + l];
      GroupValues4(block, j)[32 * half + l] == Times(Scale4(block, s), (if half == 0 then q % 16 else q / 16) as real) - Min4(block, s)
  {
    var low, high := Affine(LowNibbles(Group4(block, j)), Scale4(block, 2 * j), Min4(block, 2 * j)), Affine(HighNibbles(Group4(block, j)), Scale4(block, 2 * j + 1), Min4(block, 2 * j + 1));
    assert Group4(block, j)[l] == block[16 + 32 * j + l];
    if half == 0 {
      assert (low + high)[l] == low[l];
    } else {
      assert (low + high)[32 + l] == high[l];
    }
  }

  /** Value l of half `half` of group j of a Q4_K block: the group's nibble, low ones first, times the scale of the 32 values,
      minus their minimum. */
  lemma Value4At(block: Data, j: nat, half: nat, l: nat)
    requires |block| == 144 && j < 4 && half < 2 && l < 32
    ensures var q: int := block[16 + 32 * j + l];
      var (scale, min) := GetScaleMinK4(2 * j + half, block[4..16]);
      Values4(block, 4)[64 * j + (32 * half + l)] ==
        Times(Times(Half(block[0], block[1]), scale as real), (if half == 0 then q % 16 else q / 16) as real)
        - Times(Half(block[2], block[3]), min as real)
  {
    ValueOfGroup(block, j, 4, 32 * half + l);
    GroupCell(block, j, half, l, 2 * j + half);
  }

  /** Six bits from the two arrays of a Q6_K half, less 32. */
  function SixBitsAt(block: Data, h: nat, t: nat, l: nat): int
    requires |block| == 210 && h < 2 && t < 4 && l < 32
  {
    var low: int := block[64 * h + 32 * (t % 2) + l];
    var high: int := block[128 + 32 * h + l];
    (if t < 2 then low % 16 else low / 16) + 16 * (high / (if t == 0 then 1 else if t == 1 then 4 else if t == 2 then 16 else 64) % 4) - 32
  }

  lemma SixIs(block: Data, h: nat, t: nat, l: nat)
    requires |block| == 210 && h < 2 && t < 4 && l < 32
    ensures Six(Low6(block, h)[l + 32 * (t % 2)], High6(block, h)[l], t) == SixBitsAt(block, h, t, l)
  {
    assert Low6(block, h)[l + 32 * (t % 2)] == block[64 * h + 32 * (t % 2) + l];
    assert High6(block, h)[l] == block[128 + 32 * h + l];
  }

  lemma QuarterCell(d: real, ql: Data, qh: Data, sc: Data, t: nat, l: nat)
    requires |ql| == 64 && |qh| == 32 && |sc| == 8 && t < 4 && l < 32
    ensures Quarters6(d, ql, qh, sc)[32 * t + l] == Value6(d, ql, qh, sc, t, l)
  {
    var a, b, c, e := Quarter6(d, ql, qh, sc, 0), Quarter6(d, ql, qh, sc, 1), Quarter6(d, ql, qh, sc, 2), Quarter6(d, ql, qh, sc, 3);
    FourParts(a, b, c, e, t, l);
  }

  lemma FourParts(a: Vec, b: Vec, c: Vec, d: Vec, t: nat, l: nat)
    requires |a| == |b| == |c| == |d| == 32 && t < 4 && l < 32
    ensures (a + (b + (c + d)))[32 * t + l] == (if t == 0 then a else if t == 1 then b else if t == 2 then c else d)[l]
  {
  }

  /** Value l of quarter t of half h of a Q6_K block: the six bits times the scale of their 16 values and the block's. */
  lemma Value6At(block: Data, h: nat, t: nat, l: nat)
    requires |block| == 210 && h < 2 && t < 4 && l < 32
    ensures Half6(block, h)[32 * t + l] ==
      Times(Times(Half(block[208], block[209]), Signed(block[192 + 8 * h + (l / 16 + 2 * t)]) as real), SixBitsAt(block, h, t, l) as real)
  {
    QuarterCell(Half(block[208], block[209]), Low6(block, h), High6(block, h), Scales6(block, h), t, l);
    SixIs(block, h, t, l);
    assert Scales6(block, h)[l / 16 + 2 * t] == block[192 + 8 * h + (l / 16 + 2 * t)];
  }

  /** The two halves of a Q6_K block stand one after the other. */
  lemma HalvesAt(block: Data, h: nat, k: nat)
    requires |block| == 210 && h < 2 && k < 128
    ensures BlockValues(Q6_K, block)[128 * h + k] == Half6(block, h)[k]
  {
  }

  /** Value i of a Q8_0 block is a signed byte times the block's scale. */
  lemma Value8At(block: Data, i: nat)
    requires |block| == 34 && i < 32
    ensures BlockValues(Q8_0, block)[i] == Times(Signed(block[2 + i]) as real, Half(block[0], block[1]))
  {
  }
}
