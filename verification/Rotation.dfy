/** TurboQuant's seeded orthogonal rotation: two rounds of shuffle, sign flips and block Hadamard,
    and the inverse that records the same random draws before undoing them. */
module Rotation {
  import opened Common
  import opened Vectors
  import opened Hadamard
  import opened SplitMix

  /** A generator in use: the words it produces and how many have been taken. */
  class Draws {
    const words: Words
    var taken: nat

    constructor (words: Words)
      ensures this.words == words && taken == 0
    {
      this.words, taken := words, 0;
    }

    method Next() returns (word: Word)
      modifies this
      ensures taken == old(taken) + 1 && word == words(old(taken))
    {
      word := words(taken);
      taken := taken + 1;
    }
  }

  // ---------- one round's draws ----------

  type Swap = (nat, nat)

  /** What one round draws: dim - 1 swaps, from the last coordinate down, then one sign word per 64 coordinates. */
  datatype Plan = Plan(swaps: seq<Swap>, signs: seq<Word>)

  function Chunks(dim: nat): nat {
    (dim + 63) / 64
  }

  function DrawnSwap(word: Word, i: nat): (r: Swap)
    ensures r.0 == i && r.1 <= i
  {
    (i, word.high % (i + 1))
  }

  function DrawSwaps(words: Words, dim: nat, base: nat): (r: seq<Swap>)
    requires dim >= 1
    ensures |r| == dim - 1 && forall t :: 0 <= t < |r| ==> r[t] == DrawnSwap(words(base + t), dim - 1 - t)
  {
    seq(dim - 1, t requires 0 <= t < dim - 1 => DrawnSwap(words(base + t), dim - 1 - t))
  }

  function DrawSigns(words: Words, n: nat, base: nat): (r: seq<Word>)
    ensures |r| == n && forall t :: 0 <= t < |r| ==> r[t] == words(base + t)
  {
    seq(n, t requires 0 <= t => words(base + t))
  }

  /** The plan drawn from a stream that has already produced `base` words. */
  function DrawPlan(words: Words, dim: nat, base: nat): (r: Plan)
    requires dim >= 1
    ensures ValidPlan(r, dim)
  {
    Plan(DrawSwaps(words, dim, base), DrawSigns(words, Chunks(dim), base + dim - 1))
  }

  /** How many words one round draws. */
  function RoundDraws(dim: nat): nat
    requires dim >= 1
  {
    dim - 1 + Chunks(dim)
  }

  predicate ValidPlan(p: Plan, dim: nat) {
    ValidSwaps(p.swaps, dim) && |p.signs| == Chunks(dim)
  }

  predicate ValidSwaps(swaps: seq<Swap>, dim: nat) {
    forall t :: 0 <= t < |swaps| ==> swaps[t].0 < dim && swaps[t].1 < dim
  }

  // ---------- shuffle ----------

  function Exchange(s: Vec, x: Swap): (r: Vec)
    requires x.0 < |s| && x.1 < |s|
    ensures |r| == |s|
  {
    s[x.0 := s[x.1]][x.1 := s[x.0]]
  }

  function ApplySwaps(s: Vec, swaps: seq<Swap>): (r: Vec)
    requires ValidSwaps(swaps, |s|)
    ensures |r| == |s|
  {
    if |swaps| == 0 then s
    else Exchange(ApplySwaps(s, swaps[..|swaps| - 1]), swaps[|swaps| - 1])
  }

  /** The swaps undone, last first. */
  function UndoSwaps(s: Vec, swaps: seq<Swap>): (r: Vec)
    requires ValidSwaps(swaps, |s|)
    ensures |r| == |s|
    decreases |swaps|
  {
    if |swaps| == 0 then s
    else UndoSwaps(Exchange(s, swaps[|swaps| - 1]), swaps[..|swaps| - 1])
  }

  lemma {:induction false} UndoApply(s: Vec, swaps: seq<Swap>)
    requires ValidSwaps(swaps, |s|)
    ensures UndoSwaps(ApplySwaps(s, swaps), swaps) == s
    decreases |swaps|
  {
    if |swaps| > 0 {
      var n := |swaps| - 1;
      var before := ApplySwaps(s, swaps[..n]);
      assert Exchange(Exchange(before, swaps[n]), swaps[n]) == before;
      UndoApply(s, swaps[..n]);
    }
  }

  lemma {:induction false} ApplyUndo(s: Vec, swaps: seq<Swap>)
    requires ValidSwaps(swaps, |s|)
    ensures ApplySwaps(UndoSwaps(s, swaps), swaps) == s
    decreases |swaps|
  {
    if |swaps| > 0 {
      var n := |swaps| - 1;
      ApplyUndo(Exchange(s, swaps[n]), swaps[..n]);
      assert Exchange(Exchange(s, swaps[n]), swaps[n]) == s;
    }
  }

  // ---------- sign flips ----------

  function Flip(x: real, word: Word, idx: nat): real
    requires idx < 64
  {
    if word.bits[idx] then -x else x
  }

  function FlipSigns(s: Vec, signs: seq<Word>): (r: Vec)
    requires |signs| == Chunks(|s|)
    ensures |r| == |s| && forall i :: 0 <= i < |r| ==> r[i] == if signs[i / 64].bits[i % 64] then -s[i] else s[i]
  {
    seq(|s|, i requires 0 <= i < |s| => Flip(s[i], signs[i / 64], i % 64))
  }

  // ---------- one round and its inverse ----------

  /** The normalised transform on consecutive blocks of 2^k values; a shorter tail is left as it is. */
  function FwhtBlocks(s: Vec, k: nat, c: real): (r: Vec)
    ensures |r| == |s|
    decreases |s|
  {
    var h := Pow2(k);
    if |s| < h then s else Fwht(s[..h], k, c) + FwhtBlocks(s[h..], k, c)
  }

  function Forward(s: Vec, p: Plan, k: nat, c: real): (r: Vec)
    requires ValidPlan(p, |s|)
    ensures |r| == |s|
  {
    FwhtBlocks(FlipSigns(ApplySwaps(s, p.swaps), p.signs), k, c)
  }

  function Backward(s: Vec, p: Plan, k: nat, c: real): (r: Vec)
    requires ValidPlan(p, |s|)
    ensures |r| == |s|
  {
    UndoSwaps(FlipSigns(FwhtBlocks(s, k, c), p.signs), p.swaps)
  }

  /** log2 of the block size: the largest of 64, 32, 16 dividing dim, else 8. */
  function BlockExponent(dim: nat): nat {
    if dim % 64 == 0 then 6 else if dim % 32 == 0 then 5 else if dim % 16 == 0 then 4 else 3
  }

  /** The greatest of 64, 32 and 16 that divides dim; 8 if none does. */
  predicate IsBlockSize(size: nat, dim: nat) {
    && (size == 8 || size == 16 || size == 32 || size == 64) && (size > 8 ==> dim % size == 0)
    && (dim % 16 == 0 ==> 16 <= size) && (dim % 32 == 0 ==> 32 <= size) && (dim % 64 == 0 ==> 64 <= size)
  }

  lemma BlockSizeIs(dim: nat)
    ensures IsBlockSize(Pow2(BlockExponent(dim)), dim)
  {
    assert Pow2(3) == 8 && Pow2(4) == 16 && Pow2(5) == 32 && Pow2(6) == 64;
  }

  function Rotate(s: Vec, c: real, words: Words): (r: Vec)
    ensures |r| == |s|
  {
    if |s| < 8 then s
    else
      var k := BlockExponent(|s|);
      Forward(Forward(s, DrawPlan(words, |s|, 0), k, c), DrawPlan(words, |s|, RoundDraws(|s|)), k, c)
  }

  function Unrotate(s: Vec, c: real, words: Words): (r: Vec)
    ensures |r| == |s|
  {
    if |s| < 8 then s
    else
      var k := BlockExponent(|s|);
      Backward(Backward(s, DrawPlan(words, |s|, RoundDraws(|s|)), k, c), DrawPlan(words, |s|, 0), k, c)
  }

  /** c is the scale the code computes for vectors of this dimension. */
  predicate RightScale(c: real, dim: nat) {
    InverseRoot(c, BlockExponent(dim))
  }

  // ---------- the block transform is an orthogonal linear involution ----------

  lemma FirstBlock(a: Vec, b: Vec, k: nat, c: real)
    requires |a| == Pow2(k)
    ensures FwhtBlocks(a + b, k, c) == Fwht(a, k, c) + FwhtBlocks(b, k, c)
  {
    assert (a + b)[..Pow2(k)] == a && (a + b)[Pow2(k)..] == b;
  }

  lemma {:induction false} FwhtBlocksSelfInverse(s: Vec, k: nat, c: real)
    requires InverseRoot(c, k)
    ensures FwhtBlocks(FwhtBlocks(s, k, c), k, c) == s
    decreases |s|
  {
    var h := Pow2(k);
    if |s| >= h {
      var s0, s1 := s[..h], s[h..];
      assert s == s0 + s1;
      FirstBlock(s0, s1, k, c);
      FwhtSelfInverse(s0, k, c);
      FwhtBlocksSelfInverse(s1, k, c);
      FirstBlock(Fwht(s0, k, c), FwhtBlocks(s1, k, c), k, c);
    }
  }

  lemma {:induction false} FwhtBlocksDot(s: Vec, t: Vec, k: nat, c: real)
    requires |s| == |t| && InverseRoot(c, k)
    ensures Dot(FwhtBlocks(s, k, c), FwhtBlocks(t, k, c)) == Dot(s, t)
    decreases |s|
  {
    var h := Pow2(k);
    if |s| >= h {
      var s0, s1, t0, t1 := s[..h], s[h..], t[..h], t[h..];
      var a, b, a', b' := Fwht(s0, k, c), FwhtBlocks(s1, k, c), Fwht(t0, k, c), FwhtBlocks(t1, k, c);
      FwhtDot(s0, t0, k, c);
      FwhtBlocksDot(s1, t1, k, c);
      DotConcat(a, b, a', b');
      DotSplit(s, t, h);
    }
  }

  lemma {:induction false} FwhtBlocksLinear(s: Vec, t: Vec, k: nat, c: real, z: real)
    requires |s| == |t|
    ensures FwhtBlocks(Sub(s, t), k, c) == Sub(FwhtBlocks(s, k, c), FwhtBlocks(t, k, c))
    ensures FwhtBlocks(Scale(s, z), k, c) == Scale(FwhtBlocks(s, k, c), z)
    decreases |s|
  {
    var h := Pow2(k);
    if |s| >= h {
      var s0, s1, t0, t1 := s[..h], s[h..], t[..h], t[h..];
      var a, b, a', b' := Fwht(s0, k, c), FwhtBlocks(s1, k, c), Fwht(t0, k, c), FwhtBlocks(t1, k, c);
      PointwiseSplit(s, t, z, h);
      FwhtLinear(s0, t0, k, c, z);
      FwhtBlocksLinear(s1, t1, k, c, z);
      PointwiseConcat(a, b, a', b', z);
    }
  }

  lemma PointwiseConcat(a: Vec, b: Vec, a': Vec, b': Vec, z: real)
    requires |a| == |a'| && |b| == |b'|
    ensures Sub(a + b, a' + b') == Sub(a, a') + Sub(b, b')
    ensures Scale(a + b, z) == Scale(a, z) + Scale(b, z)
  {
  }

  // ---------- swaps and flips preserve dot products and are linear ----------

  lemma {:induction false} DotToUpdate(a: Vec, b: Vec, i: nat, x: real, y: real, n: nat)
    requires |a| == |b| && i < n <= |a|
    ensures DotTo(a[i := x], b[i := y], n) == DotTo(a, b, n) - Times(a[i], b[i]) + Times(x, y)
  {
    if i < n - 1 {
      DotToUpdate(a, b, i, x, y, n - 1);
    } else {
      DotToPrefix(a[i := x], b[i := y], a, b, n - 1);
    }
  }

  lemma ExchangeDot(s: Vec, t: Vec, x: Swap)
    requires |s| == |t| && x.0 < |s| && x.1 < |s|
    ensures Dot(Exchange(s, x), Exchange(t, x)) == Dot(s, t)
  {
    var s', t' := s[x.0 := s[x.1]], t[x.0 := t[x.1]];
    DotToUpdate(s, t, x.0, s[x.1], t[x.1], |s|);
    DotToUpdate(s', t', x.1, s[x.0], t[x.0], |s|);
  }

  lemma ExchangeLinear(s: Vec, t: Vec, x: Swap, z: real)
    requires |s| == |t| && x.0 < |s| && x.1 < |s|
    ensures Exchange(Sub(s, t), x) == Sub(Exchange(s, x), Exchange(t, x))
    ensures Exchange(Scale(s, z), x) == Scale(Exchange(s, x), z)
  {
  }

  lemma {:induction false} SwapsDot(s: Vec, t: Vec, swaps: seq<Swap>)
    requires |s| == |t| && ValidSwaps(swaps, |s|)
    ensures Dot(ApplySwaps(s, swaps), ApplySwaps(t, swaps)) == Dot(s, t)
    decreases |swaps|
  {
    if |swaps| > 0 {
      var n := |swaps| - 1;
      var s', t' := ApplySwaps(s, swaps[..n]), ApplySwaps(t, swaps[..n]);
      SwapsDot(s, t, swaps[..n]);
      ExchangeDot(s', t', swaps[n]);
    }
  }

  lemma {:induction false} SwapsLinear(s: Vec, t: Vec, swaps: seq<Swap>, z: real)
    requires |s| == |t| && ValidSwaps(swaps, |s|)
    ensures ApplySwaps(Sub(s, t), swaps) == Sub(ApplySwaps(s, swaps), ApplySwaps(t, swaps))
    ensures ApplySwaps(Scale(s, z), swaps) == Scale(ApplySwaps(s, swaps), z)
    decreases |swaps|
  {
    if |swaps| > 0 {
      var n := |swaps| - 1;
      var s', t' := ApplySwaps(s, swaps[..n]), ApplySwaps(t, swaps[..n]);
      SwapsLinear(s, t, swaps[..n], z);
      ExchangeLinear(s', t', swaps[n], z);
    }
  }

  lemma FlipSelfInverse(s: Vec, signs: seq<Word>)
    requires |signs| == Chunks(|s|)
    ensures FlipSigns(FlipSigns(s, signs), signs) == s
  {
  }

  lemma {:induction false} FlipDotTo(s: Vec, t: Vec, signs: seq<Word>, n: nat)
    requires |s| == |t| && |signs| == Chunks(|s|) && n <= |s|
    ensures DotTo(FlipSigns(s, signs), FlipSigns(t, signs), n) == DotTo(s, t, n)
  {
    if n > 0 {
      FlipDotTo(s, t, signs, n - 1);
      TimesNegate(s[n - 1], t[n - 1]);
    }
  }

  lemma FlipDot(s: Vec, t: Vec, signs: seq<Word>)
    requires |s| == |t| && |signs| == Chunks(|s|)
    ensures Dot(FlipSigns(s, signs), FlipSigns(t, signs)) == Dot(s, t)
  {
    FlipDotTo(s, t, signs, |s|);
  }

  lemma TimesNegate(x: real, y: real)
    ensures Times(-x, -y) == Times(x, y) && Times(-x, y) == -Times(x, y)
  {
  }

  lemma FlipLinear(s: Vec, t: Vec, signs: seq<Word>, z: real)
    requires |s| == |t| && |signs| == Chunks(|s|)
    ensures FlipSigns(Sub(s, t), signs) == Sub(FlipSigns(s, signs), FlipSigns(t, signs))
    ensures FlipSigns(Scale(s, z), signs) == Scale(FlipSigns(s, signs), z)
  {
    forall i | 0 <= i < |s|
      ensures FlipSigns(Scale(s, z), signs)[i] == Scale(FlipSigns(s, signs), z)[i]
    {
      TimesNegate(s[i], z);
    }
  }

  // ---------- rounds ----------

  lemma RoundInverse(s: Vec, p: Plan, k: nat, c: real)
    requires ValidPlan(p, |s|) && InverseRoot(c, k)
    ensures Backward(Forward(s, p, k, c), p, k, c) == s
    ensures Forward(Backward(s, p, k, c), p, k, c) == s
  {
    var a := ApplySwaps(s, p.swaps);
    FwhtBlocksSelfInverse(FlipSigns(a, p.signs), k, c);
    FlipSelfInverse(a, p.signs);
    UndoApply(s, p.swaps);
    var b := FwhtBlocks(s, k, c);
    ApplyUndo(FlipSigns(b, p.signs), p.swaps);
    FlipSelfInverse(b, p.signs);
    FwhtBlocksSelfInverse(s, k, c);
  }

  lemma RoundDot(s: Vec, t: Vec, p: Plan, k: nat, c: real)
    requires |s| == |t| && ValidPlan(p, |s|) && InverseRoot(c, k)
    ensures Dot(Forward(s, p, k, c), Forward(t, p, k, c)) == Dot(s, t)
  {
    var a, b := ApplySwaps(s, p.swaps), ApplySwaps(t, p.swaps);
    var a', b' := FlipSigns(a, p.signs), FlipSigns(b, p.signs);
    FwhtBlocksDot(a', b', k, c);
    FlipDot(a, b, p.signs);
    SwapsDot(s, t, p.swaps);
  }

  lemma RoundLinear(s: Vec, t: Vec, p: Plan, k: nat, c: real, z: real)
    requires |s| == |t| && ValidPlan(p, |s|)
    ensures Forward(Sub(s, t), p, k, c) == Sub(Forward(s, p, k, c), Forward(t, p, k, c))
    ensures Forward(Scale(s, z), p, k, c) == Scale(Forward(s, p, k, c), z)
  {
    var a, b := ApplySwaps(s, p.swaps), ApplySwaps(t, p.swaps);
    SwapsLinear(s, t, p.swaps, z);
    FlipLinear(a, b, p.signs, z);
    FwhtBlocksLinear(FlipSigns(a, p.signs), FlipSigns(b, p.signs), k, c, z);
  }

  // ---------- the rotation ----------

  lemma TwoRoundsInverse(s: Vec, p: Plan, q: Plan, k: nat, c: real)
    requires ValidPlan(p, |s|) && ValidPlan(q, |s|) && InverseRoot(c, k)
    ensures Backward(Backward(Forward(Forward(s, p, k, c), q, k, c), q, k, c), p, k, c) == s
    ensures Forward(Forward(Backward(Backward(s, q, k, c), p, k, c), p, k, c), q, k, c) == s
  {
    RoundInverse(Forward(s, p, k, c), q, k, c);
    RoundInverse(s, p, k, c);
    RoundInverse(Backward(s, q, k, c), p, k, c);
    RoundInverse(s, q, k, c);
  }

  /** Unrotating undoes rotating and the other way round, for every dimension and every vector. */
  lemma RotationInverse(s: Vec, c: real, words: Words)
    requires RightScale(c, |s|)
    ensures Unrotate(Rotate(s, c, words), c, words) == s
    ensures Rotate(Unrotate(s, c, words), c, words) == s
  {
    if |s| >= 8 {
      TwoRoundsInverse(s, DrawPlan(words, |s|, 0), DrawPlan(words, |s|, RoundDraws(|s|)), BlockExponent(|s|), c);
    }
  }

  /** The engine's own stream: the generator seeded with the dimension, which the rotation keeps. */
  lemma SeededRotationInverse(s: Vec, c: real)
    requires RightScale(c, |s|)
    ensures var words := SplitMixWords(Seed(|s|));
      |Rotate(s, c, words)| == |s| && Unrotate(Rotate(s, c, words), c, words) == s && Rotate(Unrotate(s, c, words), c, words) == s
  {
    RotationInverse(s, c, SplitMixWords(Seed(|s|)));
  }

  /** Rotation preserves dot products, hence lengths and angles. */
  lemma RotationDot(s: Vec, t: Vec, c: real, words: Words)
    requires |s| == |t| && RightScale(c, |s|)
    ensures Dot(Rotate(s, c, words), Rotate(t, c, words)) == Dot(s, t)
  {
    if |s| >= 8 {
      var k, p, q := BlockExponent(|s|), DrawPlan(words, |s|, 0), DrawPlan(words, |s|, RoundDraws(|s|));
      var s', t' := Forward(s, p, k, c), Forward(t, p, k, c);
      RoundDot(s', t', q, k, c);
      RoundDot(s, t, p, k, c);
    }
  }

  lemma RotationLinear(s: Vec, t: Vec, c: real, words: Words, z: real)
    requires |s| == |t|
    ensures Rotate(Sub(s, t), c, words) == Sub(Rotate(s, c, words), Rotate(t, c, words))
    ensures Rotate(Scale(s, z), c, words) == Scale(Rotate(s, c, words), z)
  {
    if |s| >= 8 {
      var k, p, q := BlockExponent(|s|), DrawPlan(words, |s|, 0), DrawPlan(words, |s|, RoundDraws(|s|));
      var s', t' := Forward(s, p, k, c), Forward(t, p, k, c);
      RoundLinear(s, t, p, k, c, z);
      RoundLinear(s', t', q, k, c, z);
    }
  }

  // ---------- the in-place code ----------

  method ChooseBlockSize(dim: nat) returns (blockSize: nat)
    requires dim >= 8
    ensures blockSize == Pow2(BlockExponent(dim)) && IsBlockSize(blockSize, dim)
  {
    BlockSizeIs(dim);
    assert Pow2(3) == 8 && Pow2(4) == 16 && Pow2(5) == 32 && Pow2(6) == 64;
    blockSize := 64;
    while blockSize > 8 && dim % blockSize != 0
      invariant blockSize == 64 || blockSize == 32 || blockSize == 16 || blockSize == 8
      invariant blockSize < 64 ==> dim % 64 != 0
      invariant blockSize < 32 ==> dim % 32 != 0
      invariant blockSize < 16 ==> dim % 16 != 0
    {
      blockSize := blockSize / 2;
    }
    if dim % blockSize != 0 {
      blockSize := 8;
    }
  }

  /** Step 1 of a round: the Fisher-Yates loop, drawing as it swaps. */
  method Shuffle(buf: array<real>, rng: Draws)
    requires buf.Length >= 1
    modifies buf, rng
    ensures buf[..] == ApplySwaps(old(buf[..]), DrawSwaps(rng.words, buf.Length, old(rng.taken)))
    ensures rng.taken == old(rng.taken) + buf.Length - 1
  {
    var dim := buf.Length;
    ghost var base, orig, t := rng.taken, buf[..], 0;
    ghost var swaps := DrawSwaps(rng.words, dim, base);
    for i := dim downto 1
      invariant t == dim - i && rng.taken == base + t
      invariant buf[..] == ApplySwaps(orig, swaps[..t])
    {
      ShuffleStep(buf, rng, i, orig, swaps, t, base);
      t := t + 1;
    }
    AllSwaps(swaps, t);
  }

  /** One draw and one swap. */
  method ShuffleStep(buf: array<real>, rng: Draws, i: nat, ghost orig: Vec, ghost swaps: seq<Swap>, ghost t: nat, ghost base: nat)
    requires 1 <= i < buf.Length == |orig| && t + 1 + i == |orig| && rng.taken == base + t
    requires swaps == DrawSwaps(rng.words, |orig|, base) && buf[..] == ApplySwaps(orig, swaps[..t])
    modifies buf, rng
    ensures rng.taken == old(rng.taken) + 1 && buf[..] == ApplySwaps(orig, swaps[..t + 1])
  {
    var word := rng.Next();
    SwapsStep(orig, swaps, t);
    SwapCells(buf, i, word.high % (i + 1));
  }

  lemma AllSwaps(swaps: seq<Swap>, t: nat)
    requires t == |swaps|
    ensures swaps[..t] == swaps
  {
  }

  method SwapCells(buf: array<real>, i: nat, j: nat)
    requires i < buf.Length && j < buf.Length
    modifies buf
    ensures buf[..] == Exchange(old(buf[..]), (i, j))
  {
    buf[i], buf[j] := buf[j], buf[i];
  }

  lemma SwapsStep(s: Vec, swaps: seq<Swap>, t: nat)
    requires ValidSwaps(swaps, |s|) && t < |swaps|
    ensures ApplySwaps(s, swaps[..t + 1]) == Exchange(ApplySwaps(s, swaps[..t]), swaps[t])
    ensures UndoSwaps(s, swaps[..t + 1]) == UndoSwaps(Exchange(s, swaps[t]), swaps[..t])
  {
    assert swaps[..t + 1][..t] == swaps[..t];
  }

  /** Flipping one 64-wide chunk, cell by cell. */
  method FlipChunk(buf: array<real>, chunk: nat, word: Word)
    requires chunk < Chunks(buf.Length)
    modifies buf
    ensures forall p :: 0 <= p < buf.Length ==>
      buf[p] == if p / 64 == chunk then Flip(old(buf[p]), word, p % 64) else old(buf[p])
  {
    var lo := chunk * 64;
    var hi := if lo + 64 <= buf.Length then lo + 64 else buf.Length;
    for p := lo to hi
      invariant forall q :: lo <= q < p ==> buf[q] == Flip(old(buf[q]), word, q - lo)
      invariant forall q :: 0 <= q < buf.Length && !(lo <= q < p) ==> buf[q] == old(buf[q])
    {
      if word.bits[p - lo] {
        buf[p] := -buf[p];
      }
    }
  }

  /** Step 2 of a round: one fresh word per 64-wide chunk. */
  method FlipDrawing(buf: array<real>, rng: Draws)
    modifies buf, rng
    ensures buf[..] == FlipSigns(old(buf[..]), DrawSigns(rng.words, Chunks(buf.Length), old(rng.taken)))
    ensures rng.taken == old(rng.taken) + Chunks(buf.Length)
  {
    ghost var base := rng.taken;
    ghost var signs := DrawSigns(rng.words, Chunks(buf.Length), base);
    for chunk := 0 to Chunks(buf.Length)
      invariant rng.taken == base + chunk
      invariant forall p :: 0 <= p < buf.Length ==>
        buf[p] == if p / 64 < chunk then Flip(old(buf[p]), signs[p / 64], p % 64) else old(buf[p])
    {
      var word := rng.Next();
      assert word == signs[chunk];
      FlipChunk(buf, chunk, word);
    }
  }

  /** The same flips from recorded words. */
  method FlipRecorded(buf: array<real>, signs: seq<Word>)
    requires |signs| == Chunks(buf.Length)
    modifies buf
    ensures buf[..] == FlipSigns(old(buf[..]), signs)
  {
    for chunk := 0 to Chunks(buf.Length)
      invariant forall p :: 0 <= p < buf.Length ==>
        buf[p] == if p / 64 < chunk then Flip(old(buf[p]), signs[p / 64], p % 64) else old(buf[p])
    {
      FlipChunk(buf, chunk, signs[chunk]);
    }
  }

  /** The cells after the block loop has reached lo. */
  function Progress(orig: Vec, lo: nat, k: nat, c: real): (r: Vec)
    requires lo <= |orig|
    ensures |r| == |orig|
    decreases lo
  {
    if lo < Pow2(k) then orig else TransformAt(Progress(orig, lo - Pow2(k), k, c), lo - Pow2(k), k, c)
  }

  /** Transforming the blocks the loop has not reached would complete the result. */
  lemma {:induction false} ProgressInvariant(orig: Vec, lo: nat, k: nat, c: real)
    requires lo <= |orig| && Whole(lo, Pow2(k))
    ensures Progress(orig, lo, k, c)[..lo] + FwhtBlocks(Progress(orig, lo, k, c)[lo..], k, c) == FwhtBlocks(orig, k, c)
    decreases lo
  {
    var h := Pow2(k);
    if lo < h {
      assert lo == 0 && orig[0..] == orig && orig[..0] == [];
    } else {
      ProgressInvariant(orig, lo - h, k, c);
      NextBlock(Progress(orig, lo - h, k, c), lo - h, lo, k, c);
    }
  }

  lemma NextBlock(cells: Vec, lo: nat, next: nat, k: nat, c: real)
    requires next == lo + Pow2(k) <= |cells|
    ensures var now := TransformAt(cells, lo, k, c);
      now[..next] + FwhtBlocks(now[next..], k, c) == cells[..lo] + FwhtBlocks(cells[lo..], k, c)
  {
    var s, h := cells[lo..], Pow2(k);
    assert s[h..] == cells[next..] && s[..h] == cells[lo..next];
    var now, block := TransformAt(cells, lo, k, c), Fwht(s[..h], k, c);
    Associate(cells[..lo], block, cells[next..]);
    Associate(cells[..lo], block, FwhtBlocks(cells[next..], k, c));
    assert now[..next] == cells[..lo] + block && now[next..] == cells[next..];
  }

  lemma Associate(a: Vec, b: Vec, c: Vec)
    ensures a + (b + c) == a + b + c
  {
  }

  lemma ProgressDone(orig: Vec, lo: nat, k: nat, c: real)
    requires lo <= |orig| < lo + Pow2(k) && Whole(lo, Pow2(k))
    ensures Progress(orig, lo, k, c) == FwhtBlocks(orig, k, c)
  {
    ProgressInvariant(orig, lo, k, c);
  }

  lemma ProgressStep(orig: Vec, lo: nat, next: nat, k: nat, c: real)
    requires next == lo + Pow2(k) <= |orig|
    ensures Progress(orig, next, k, c) == TransformAt(Progress(orig, lo, k, c), lo, k, c)
  {
    assert next - Pow2(k) == lo;
  }

  lemma BlocksNext(lo: nat, h: nat)
    requires h >= 1 && Whole(lo, h)
    ensures Whole(lo + h, h)
  {
  }

  /** The transform on the block at lo. */
  method TransformBlock(buf: array<real>, lo: nat, blockSize: nat, c: real, ghost k: nat, ghost orig: Vec)
    requires blockSize == Pow2(k) && lo + blockSize <= buf.Length == |orig|
    requires buf[..] == Progress(orig, lo, k, c)
    modifies buf
    ensures buf[..] == Progress(orig, lo + blockSize, k, c)
  {
    FwhtInPlace(buf, lo, blockSize, c, k);
    ProgressStep(orig, lo, lo + blockSize, k, c);
  }

  /** Step 3 of a round: the transform on every whole block. */
  method TransformBlocks(buf: array<real>, blockSize: nat, c: real, ghost k: nat)
    requires blockSize == Pow2(k)
    modifies buf
    ensures buf[..] == FwhtBlocks(old(buf[..]), k, c)
  {
    ghost var orig := buf[..];
    var lo := 0;
    while lo + blockSize <= buf.Length
      invariant 0 <= lo <= buf.Length && Whole(lo, blockSize)
      invariant buf[..] == Progress(orig, lo, k, c)
      decreases buf.Length - lo
    {
      TransformBlock(buf, lo, blockSize, c, k, orig);
      BlocksNext(lo, blockSize);
      lo := lo + blockSize;
    }
    ProgressDone(orig, lo, k, c);
  }

  /** One round in place. */
  method RoundInPlace(buf: array<real>, rng: Draws, blockSize: nat, c: real, ghost k: nat)
    requires buf.Length >= 1 && blockSize == Pow2(k)
    modifies buf, rng
    ensures buf[..] == Forward(old(buf[..]), DrawPlan(rng.words, buf.Length, old(rng.taken)), k, c)
    ensures rng.taken == old(rng.taken) + RoundDraws(buf.Length)
  {
    ghost var s, p := buf[..], DrawPlan(rng.words, buf.Length, rng.taken);
    Shuffle(buf, rng);
    FlipDrawing(buf, rng);
    RoundIs(s, buf[..], p, k, c);
    TransformBlocks(buf, blockSize, c, k);
  }

  lemma RoundIs(s: Vec, flipped: Vec, p: Plan, k: nat, c: real)
    requires ValidPlan(p, |s|) && flipped == FlipSigns(ApplySwaps(s, p.swaps), p.signs)
    ensures FwhtBlocks(flipped, k, c) == Forward(s, p, k, c)
  {
  }

  method RotateInPlace(buf: array<real>, c: real, words: Words)
    modifies buf
    ensures buf[..] == Rotate(old(buf[..]), c, words)
  {
    var dim := buf.Length;
    if dim < 8 {
      return;
    }
    var blockSize := ChooseBlockSize(dim);
    ghost var k := BlockExponent(dim);
    var rng := new Draws(words);
    for round := 0 to 2
      invariant rng.words == words
      invariant round == 0 ==> rng.taken == 0 && buf[..] == old(buf[..])
      invariant round == 1 ==> rng.taken == RoundDraws(dim) && buf[..] == Forward(old(buf[..]), DrawPlan(words, dim, 0), k, c)
      invariant round == 2 ==> buf[..] == Rotate(old(buf[..]), c, words)
    {
      RoundInPlace(buf, rng, blockSize, c, k);
    }
  }

  /** `rotate_vector_in_place`: with the generator seeded with the dimension. */
  method RotateVectorInPlace(buf: array<real>, c: real)
    modifies buf
    ensures buf[..] == Rotate(old(buf[..]), c, SplitMixWords(Seed(buf.Length)))
  {
    RotateInPlace(buf, c, SplitMixWords(Seed(buf.Length)));
  }

  /** Recording one round's draws without touching the vector. */
  method RecordRound(dim: nat, rng: Draws) returns (swaps: seq<Swap>, signs: seq<Word>)
    requires dim >= 1
    modifies rng
    ensures Plan(swaps, signs) == DrawPlan(rng.words, dim, old(rng.taken))
    ensures rng.taken == old(rng.taken) + RoundDraws(dim)
  {
    ghost var base := rng.taken;
    swaps := [];
    for i := dim downto 1
      invariant rng.taken == base + (dim - i)
      invariant swaps == DrawSwaps(rng.words, dim, base)[..dim - i]
    {
      var word := rng.Next();
      swaps := swaps + [(i, word.high % (i + 1))];
    }
    signs := [];
    for b := 0 to Chunks(dim)
      invariant rng.taken == base + dim - 1 + b
      invariant signs == DrawSigns(rng.words, Chunks(dim), base + dim - 1)[..b]
    {
      var word := rng.Next();
      signs := signs + [word];
    }
  }

  method UndoShuffle(buf: array<real>, swaps: seq<Swap>)
    requires ValidSwaps(swaps, buf.Length)
    modifies buf
    ensures buf[..] == UndoSwaps(old(buf[..]), swaps)
  {
    assert swaps[..|swaps|] == swaps;
    for t := |swaps| downto 0
      invariant UndoSwaps(buf[..], swaps[..t]) == UndoSwaps(old(buf[..]), swaps)
    {
      SwapsStep(buf[..], swaps, t);
      SwapCells(buf, swaps[t].0, swaps[t].1);
    }
  }

  /** One round undone, from its recorded draws. */
  method UndoRoundInPlace(buf: array<real>, swaps: seq<Swap>, signs: seq<Word>, blockSize: nat, c: real, ghost k: nat)
    requires ValidPlan(Plan(swaps, signs), buf.Length) && blockSize == Pow2(k)
    modifies buf
    ensures buf[..] == Backward(old(buf[..]), Plan(swaps, signs), k, c)
  {
    TransformBlocks(buf, blockSize, c, k);
    FlipRecorded(buf, signs);
    UndoShuffle(buf, swaps);
  }

  method UnrotateInPlace(buf: array<real>, c: real, words: Words)
    modifies buf
    ensures buf[..] == Unrotate(old(buf[..]), c, words)
  {
    var dim := buf.Length;
    if dim < 8 {
      return;
    }
    var blockSize := ChooseBlockSize(dim);
    ghost var k := BlockExponent(dim);
    var rng := new Draws(words);
    var swaps0, signs0 := RecordRound(dim, rng);
    var swaps1, signs1 := RecordRound(dim, rng);
    assert Plan(swaps0, signs0) == DrawPlan(words, dim, 0);
    assert Plan(swaps1, signs1) == DrawPlan(words, dim, RoundDraws(dim));
    UndoRoundInPlace(buf, swaps1, signs1, blockSize, c, k);
    UndoRoundInPlace(buf, swaps0, signs0, blockSize, c, k);
  }
}
