/** The in-place Walsh-Hadamard butterfly of mivi-core, over the reals.
    `Had` is the recursive (divide and conquer) definition; `FwhtInPlace` is the three-loop
    in-place algorithm, proved to compute it block by block. */
module Hadamard {
  import opened Common
  import opened Vectors

  function Pow2(k: nat): (r: nat)
    ensures r >= 1
  {
    if k == 0 then 1 else 2 * Pow2(k - 1)
  }

  /** x doubled k times. */
  function Doubled(x: real, k: nat): real {
    if k == 0 then x else 2.0 * Doubled(x, k - 1)
  }

  /** The unnormalised transform of 2^k values: halves are transformed, then added and subtracted. */
  function Had(s: Vec, k: nat): (r: Vec)
    requires |s| == Pow2(k)
    ensures |r| == |s|
  {
    if k == 0 then s
    else
      var m := Pow2(k - 1);
      var a, b := Had(s[..m], k - 1), Had(s[m..], k - 1);
      Add(a, b) + Sub(a, b)
  }

  /** `Had` on consecutive blocks of 2^k values; a shorter tail is left as it is. */
  function HadBlocks(s: Vec, k: nat): (r: Vec)
    ensures |r| == |s|
    decreases |s|
  {
    var h := Pow2(k);
    if |s| < h then s else Had(s[..h], k) + HadBlocks(s[h..], k)
  }

  /** The normalised transform: nothing happens to a single value. */
  function Fwht(s: Vec, k: nat, c: real): (r: Vec)
    requires |s| == Pow2(k)
    ensures |r| == |s|
  {
    if k == 0 then s else Scale(Had(s, k), c)
  }

  // ---------- Had is linear, self-inverse up to 2^k, and multiplies dot products by 2^k ----------

  lemma {:induction false} HadAdd(s: Vec, t: Vec, k: nat)
    requires |s| == |t| == Pow2(k)
    ensures Had(Add(s, t), k) == Add(Had(s, k), Had(t, k))
  {
    if k > 0 {
      var m := Pow2(k - 1);
      HadAdd(s[..m], t[..m], k - 1);
      HadAdd(s[m..], t[m..], k - 1);
      PointwiseSplit(s, t, 0.0, m);
      RegroupAdd(Had(s[..m], k - 1), Had(s[m..], k - 1), Had(t[..m], k - 1), Had(t[m..], k - 1));
    }
  }

  lemma {:induction false} HadSub(s: Vec, t: Vec, k: nat)
    requires |s| == |t| == Pow2(k)
    ensures Had(Sub(s, t), k) == Sub(Had(s, k), Had(t, k))
  {
    if k > 0 {
      var m := Pow2(k - 1);
      HadSub(s[..m], t[..m], k - 1);
      HadSub(s[m..], t[m..], k - 1);
      PointwiseSplit(s, t, 0.0, m);
      RegroupSub(Had(s[..m], k - 1), Had(s[m..], k - 1), Had(t[..m], k - 1), Had(t[m..], k - 1));
    }
  }

  lemma RegroupAdd(a: Vec, b: Vec, c: Vec, d: Vec)
    requires |a| == |b| == |c| == |d|
    ensures Add(Add(a, c), Add(b, d)) + Sub(Add(a, c), Add(b, d)) == Add(Add(a, b) + Sub(a, b), Add(c, d) + Sub(c, d))
  {
  }

  lemma RegroupSub(a: Vec, b: Vec, c: Vec, d: Vec)
    requires |a| == |b| == |c| == |d|
    ensures Add(Sub(a, c), Sub(b, d)) + Sub(Sub(a, c), Sub(b, d)) == Sub(Add(a, b) + Sub(a, b), Add(c, d) + Sub(c, d))
  {
  }

  lemma {:induction false} HadScale(s: Vec, k: nat, c: real)
    requires |s| == Pow2(k)
    ensures Had(Scale(s, c), k) == Scale(Had(s, k), c)
  {
    if k > 0 {
      var m := Pow2(k - 1);
      HadScale(s[..m], k - 1, c);
      HadScale(s[m..], k - 1, c);
      PointwiseSplit(s, s, c, m);
      ScaleHalves(Had(s[..m], k - 1), Had(s[m..], k - 1), c);
    }
  }

  lemma ScaleHalves(a: Vec, b: Vec, c: real)
    requires |a| == |b|
    ensures Add(Scale(a, c), Scale(b, c)) + Sub(Scale(a, c), Scale(b, c)) == Scale(Add(a, b) + Sub(a, b), c)
  {
    ScaleLinear(a, b, c, c);
    assert Scale(Add(a, b), c) + Scale(Sub(a, b), c) == Scale(Add(a, b) + Sub(a, b), c);
  }

  /** The two halves of a vector of length 2^k, and its transform in terms of theirs. */
  lemma HadHalves(s: Vec, k: nat) returns (s0: Vec, s1: Vec)
    requires k > 0 && |s| == Pow2(k)
    ensures s == s0 + s1 && |s0| == |s1| == Pow2(k - 1)
    ensures Had(s, k) == Add(Had(s0, k - 1), Had(s1, k - 1)) + Sub(Had(s0, k - 1), Had(s1, k - 1))
  {
    s0, s1 := s[..Pow2(k - 1)], s[Pow2(k - 1)..];
  }

  /** The vector with every coordinate doubled k times. */
  function DoubledAll(s: Vec, k: nat): (r: Vec)
    ensures |r| == |s|
  {
    if k == 0 then s else var d := DoubledAll(s, k - 1); Add(d, d)
  }

  lemma {:induction false} DoubledAllAt(s: Vec, k: nat, i: nat)
    requires i < |s|
    ensures DoubledAll(s, k)[i] == Doubled(s[i], k)
  {
    if k > 0 { DoubledAllAt(s, k - 1, i); }
  }

  lemma {:induction false} DoubledAllConcat(s: Vec, t: Vec, k: nat)
    ensures DoubledAll(s + t, k) == DoubledAll(s, k) + DoubledAll(t, k)
  {
    if k > 0 {
      DoubledAllConcat(s, t, k - 1);
      DoubleConcat(DoubledAll(s, k - 1), DoubledAll(t, k - 1));
    }
  }

  lemma DoubleConcat(a: Vec, b: Vec)
    ensures Add(a + b, a + b) == Add(a, a) + Add(b, b)
  {
  }

  /** Applying the butterfly twice doubles every coordinate k times. */
  lemma {:induction false} HadHad(s: Vec, k: nat)
    requires |s| == Pow2(k)
    ensures Had(Had(s, k), k) == DoubledAll(s, k)
  {
    if k > 0 {
      var s0, s1 := HadHalves(s, k);
      var a, b := Had(s0, k - 1), Had(s1, k - 1);
      HadHad(s0, k - 1);
      HadHad(s1, k - 1);
      HadSumDifference(a, b, k);
      DoubledAllConcat(s0, s1, k);
    }
  }

  /** The butterfly turns [a + b, a - b] into twice [Had(a), Had(b)]. */
  lemma HadSumDifference(a: Vec, b: Vec, k: nat)
    requires k > 0 && |a| == |b| == Pow2(k - 1)
    ensures Had(Add(a, b) + Sub(a, b), k) == Add(Had(a, k - 1), Had(a, k - 1)) + Add(Had(b, k - 1), Had(b, k - 1))
  {
    HadConcat(Add(a, b), Sub(a, b), k);
    HadAdd(a, b, k - 1);
    HadSub(a, b, k - 1);
    TwiceEach(Had(a, k - 1), Had(b, k - 1));
  }

  lemma HadConcat(x: Vec, y: Vec, k: nat)
    requires k > 0 && |x| == |y| == Pow2(k - 1)
    ensures Had(x + y, k) == Add(Had(x, k - 1), Had(y, k - 1)) + Sub(Had(x, k - 1), Had(y, k - 1))
  {
    assert (x + y)[..|x|] == x && (x + y)[|x|..] == y;
  }

  lemma TwiceEach(a: Vec, b: Vec)
    requires |a| == |b|
    ensures Add(Add(a, b), Sub(a, b)) + Sub(Add(a, b), Sub(a, b)) == Add(a, a) + Add(b, b)
  {
  }

  lemma {:induction false} DoubledAdd(x: real, y: real, k: nat)
    ensures Doubled(x + y, k) == Doubled(x, k) + Doubled(y, k)
  {
    if k > 0 { DoubledAdd(x, y, k - 1); }
  }

  lemma {:induction false} HadDot(s: Vec, t: Vec, k: nat)
    requires |s| == |t| == Pow2(k)
    ensures Dot(Had(s, k), Had(t, k)) == Doubled(Dot(s, t), k)
  {
    if k > 0 {
      var s0, s1 := HadHalves(s, k);
      var t0, t1 := HadHalves(t, k);
      var below := k - 1;
      var a, b, c, d := Had(s0, below), Had(s1, below), Had(t0, below), Had(t1, below);
      HadDot(s0, t0, below);
      HadDot(s1, t1, below);
      HadDotStep(s0, s1, t0, t1, k, a, b, c, d);
    }
  }

  lemma HadDotStep(s0: Vec, s1: Vec, t0: Vec, t1: Vec, k: nat, a: Vec, b: Vec, c: Vec, d: Vec)
    requires k > 0 && |s0| == |t0| && |s1| == |t1| && |a| == |b| == |c| == |d|
    requires Dot(a, c) == Doubled(Dot(s0, t0), k - 1) && Dot(b, d) == Doubled(Dot(s1, t1), k - 1)
    ensures Dot(Add(a, b) + Sub(a, b), Add(c, d) + Sub(c, d)) == Doubled(Dot(s0 + s1, t0 + t1), k)
  {
    DotHalves(a, b, c, d);
    DotConcat(s0, s1, t0, t1);
    DoubledAdd(Dot(s0, t0), Dot(s1, t1), k - 1);
  }

  lemma DotHalves(a: Vec, b: Vec, c: Vec, d: Vec)
    requires |a| == |b| == |c| == |d|
    ensures Dot(Add(a, b) + Sub(a, b), Add(c, d) + Sub(c, d)) == 2.0 * (Dot(a, c) + Dot(b, d))
  {
    DotConcat(Add(a, b), Sub(a, b), Add(c, d), Sub(c, d));
    DotButterfly(a, b, c, d);
  }

  // ---------- entry by entry ----------

  /** i and j have an odd number of binary ones in common. */
  predicate Opposite(i: nat, j: nat) {
    i > 0 && j > 0 && ((i % 2 == 1 && j % 2 == 1) != Opposite(i / 2, j / 2))
  }

  /** The terms of row i of the transform: the cells, with the sign of the Walsh function. */
  function Terms(s: Vec, i: nat): nat -> real {
    (j: nat) => if Opposite(i, j) then -Cell(s, j) else Cell(s, j)
  }

  lemma {:induction false} TopBit(i: nat, j: nat, k: nat)
    requires i < Pow2(k) && j < Pow2(k)
    ensures Opposite(i + Pow2(k), j) == Opposite(i, j) == Opposite(i, j + Pow2(k))
    ensures Opposite(i + Pow2(k), j + Pow2(k)) == !Opposite(i, j)
  {
    if k > 0 {
      var m := Pow2(k - 1);
      assert (i + 2 * m) / 2 == i / 2 + m && (j + 2 * m) / 2 == j / 2 + m;
      TopBit(i / 2, j / 2, k - 1);
    }
  }

  lemma HadUnfold(s: Vec, m: nat, k: nat, below: nat)
    requires k == below + 1 && m == Pow2(below) && |s| == 2 * m
    ensures Had(s, k) == Add(Had(s[..m], below), Had(s[m..], below)) + Sub(Had(s[..m], below), Had(s[m..], below))
  {
  }

  lemma JoinCells(a: Vec, b: Vec, row: nat)
    requires |a| == |b| && row < |a|
    ensures (Add(a, b) + Sub(a, b))[row] == a[row] + b[row] && (Add(a, b) + Sub(a, b))[row + |a|] == a[row] - b[row]
  {
  }

  /** Entry i is the sum of its terms. */
  ghost predicate IsEntry(s: Vec, k: nat, i: nat)
    requires |s| == Pow2(k) && i < |s|
  {
    Had(s, k)[i] == SumOf(|s|, Terms(s, i))
  }

  lemma EntryStep(s: Vec, low: Vec, high: Vec, m: nat, k: nat, below: nat, row: nat)
    requires k == below + 1 && m == Pow2(below) && |s| == 2 * m && row < m && low == s[..m] && high == s[m..]
    requires IsEntry(low, below, row) && IsEntry(high, below, row)
    ensures IsEntry(s, k, row) && IsEntry(s, k, row + m)
  {
    HadUnfold(s, m, k, below);
    JoinCells(Had(s[..m], below), Had(s[m..], below), row);
    RowEntry(s, m, below, row);
  }

  lemma EntryOne(s: Vec)
    requires |s| == 1
    ensures IsEntry(s, 0, 0)
  {
    assert SumOf(1, Terms(s, 0)) == SumOf(0, Terms(s, 0)) + Terms(s, 0)(0);
  }

  lemma {:induction false} EntryHolds(s: Vec, k: nat, i: nat)
    requires |s| == Pow2(k) && i < |s|
    ensures IsEntry(s, k, i)
    decreases k
  {
    if k == 0 {
      EntryOne(s);
    } else {
      var below := k - 1;
      var m := Pow2(below);
      var low, high, row := s[..m], s[m..], if i < m then i else i - m;
      EntryHolds(low, below, row);
      EntryHolds(high, below, row);
      EntryStep(s, low, high, m, k, below, row);
    }
  }

  /** The transform is the Walsh-Hadamard matrix: entry i is the sum of the cells, each negated where i and its index have an odd
      number of ones in common. */
  lemma HadEntry(s: Vec, k: nat, i: nat)
    requires |s| == Pow2(k) && i < |s|
    ensures Had(s, k)[i] == SumOf(|s|, Terms(s, i))
  {
    EntryHolds(s, k, i);
  }

  lemma RowEntry(s: Vec, m: nat, k: nat, row: nat)
    requires m == Pow2(k) && |s| == 2 * m && row < m
    ensures SumOf(|s|, Terms(s, row)) == SumOf(m, Terms(s[..m], row)) + SumOf(m, Terms(s[m..], row))
    ensures SumOf(|s|, Terms(s, row + m)) == SumOf(m, Terms(s[..m], row)) - SumOf(m, Terms(s[m..], row))
  {
    LowHalf(s, m, k, row);
    HighHalf(s, m, k, row);
    assert |s| == m + m;
  }

  lemma HalfTerm(s: Vec, m: nat, k: nat, row: nat, j: nat)
    requires m == Pow2(k) && |s| == 2 * m && row < m && j < m
    ensures Terms(s, row)(j) == Terms(s[..m], row)(j) && Terms(s, row)(m + j) == Terms(s[m..], row)(j)
    ensures Terms(s, row + m)(j) == Terms(s[..m], row)(j) && Terms(s, row + m)(m + j) == -Terms(s[m..], row)(j)
  {
    TopBit(row, j, k);
    assert Cell(s, j) == Cell(s[..m], j) && Cell(s, m + j) == Cell(s[m..], j);
  }

  lemma LowHalf(s: Vec, m: nat, k: nat, row: nat)
    requires m == Pow2(k) && |s| == 2 * m && row < m
    ensures SumOf(m + m, Terms(s, row)) == SumOf(m, Terms(s[..m], row)) + SumOf(m, Terms(s[m..], row))
  {
    forall j: nat | j < m ensures Terms(s, row)(j) == Terms(s[..m], row)(j) && Terms(s, row)(m + j) == Terms(s[m..], row)(j) {
      HalfTerm(s, m, k, row, j);
    }
    SumOfJoin(m, m, Terms(s, row), Terms(s[..m], row), Terms(s[m..], row));
  }

  function Negated(f: nat -> real): nat -> real {
    (j: nat) => -f(j)
  }

  lemma HighHalf(s: Vec, m: nat, k: nat, row: nat)
    requires m == Pow2(k) && |s| == 2 * m && row < m
    ensures SumOf(m + m, Terms(s, row + m)) == SumOf(m, Terms(s[..m], row)) - SumOf(m, Terms(s[m..], row))
  {
    var h := Terms(s[m..], row);
    forall j: nat | j < m ensures Terms(s, row + m)(j) == Terms(s[..m], row)(j) && Terms(s, row + m)(m + j) == Negated(h)(j) {
      HalfTerm(s, m, k, row, j);
    }
    SumOfJoin(m, m, Terms(s, row + m), Terms(s[..m], row), Negated(h));
    SumOfNegated(m, Negated(h), h);
  }

  // ---------- the normalised transform ----------

  /** c is the factor 1/sqrt(2^k) the code computes. */
  predicate InverseRoot(c: real, k: nat) {
    c * c * Pow2(k) as real == 1.0
  }

  lemma {:induction false} DoubledIsProduct(x: real, k: nat)
    ensures Doubled(x, k) == Times(x, Pow2(k) as real)
  {
    if k > 0 {
      DoubledIsProduct(x, k - 1);
      TimesAdd(Pow2(k - 1) as real, Pow2(k - 1) as real, x);
    }
  }

  lemma Normalised(x: real, k: nat, c: real)
    requires InverseRoot(c, k)
    ensures Times(Times(Doubled(x, k), c), c) == x
  {
    DoubledIsProduct(x, k);
    var n := Pow2(k) as real;
    assert x * n * c * c == x * (c * c * n);
  }

  /** With c the inverse root the normalised transform is its own inverse. */
  lemma FwhtSelfInverse(s: Vec, k: nat, c: real)
    requires |s| == Pow2(k) && InverseRoot(c, k)
    ensures Fwht(Fwht(s, k, c), k, c) == s
  {
    if k > 0 {
      HadScale(Had(s, k), k, c);
      HadHad(s, k);
      forall i | 0 <= i < |s|
        ensures Fwht(Fwht(s, k, c), k, c)[i] == s[i]
      {
        DoubledAllAt(s, k, i);
        Normalised(s[i], k, c);
      }
    }
  }

  /** With c the inverse root the normalised transform preserves dot products. */
  lemma FwhtDot(s: Vec, t: Vec, k: nat, c: real)
    requires |s| == |t| == Pow2(k) && InverseRoot(c, k)
    ensures Dot(Fwht(s, k, c), Fwht(t, k, c)) == Dot(s, t)
  {
    if k > 0 {
      HadDot(s, t, k);
      DotScale(Had(s, k), Scale(Had(t, k), c), c);
      DotScale(Had(s, k), Had(t, k), c);
      Normalised(Dot(s, t), k, c);
    }
  }

  lemma FwhtLinear(s: Vec, t: Vec, k: nat, c: real, z: real)
    requires |s| == |t| == Pow2(k)
    ensures Fwht(Sub(s, t), k, c) == Sub(Fwht(s, k, c), Fwht(t, k, c))
    ensures Fwht(Scale(s, z), k, c) == Scale(Fwht(s, k, c), z)
  {
    if k > 0 {
      HadSub(s, t, k);
      HadScale(s, k, z);
      ScaleLinear(Had(s, k), Had(t, k), c, z);
    }
  }

  // ---------- block structure, for the loops ----------

  lemma {:induction false} WholeAdd(a: nat, b: nat, h: nat)
    requires h >= 1 && Whole(a, h) && Whole(b, h)
    ensures Whole(a + b, h)
    decreases a
  {
    if a > 0 { WholeAdd(a - h, b, h); }
  }

  lemma {:induction false} Pow2Whole(k: nat, j: nat)
    requires j <= k
    ensures Whole(Pow2(k), Pow2(j))
  {
    if j < k {
      Pow2Whole(k - 1, j);
      WholeAdd(Pow2(k - 1), Pow2(k - 1), Pow2(j));
    } else {
      assert Whole(0, Pow2(j));
    }
  }

  lemma {:induction false} Pow2Order(j: nat, k: nat)
    ensures j < k <==> Pow2(j) < Pow2(k)
    ensures j == k <==> Pow2(j) == Pow2(k)
    decreases j + k
  {
    if j > 0 && k > 0 { Pow2Order(j - 1, k - 1); }
  }

  lemma {:induction false} HadBlocksOne(s: Vec)
    ensures HadBlocks(s, 0) == s
    decreases |s|
  {
    if |s| > 0 {
      HadBlocksOne(s[1..]);
      assert s == s[..1] + s[1..];
    }
  }

  lemma HadBlocksSingle(s: Vec, k: nat)
    requires |s| == Pow2(k)
    ensures HadBlocks(s, k) == Had(s, k)
  {
    var h := Pow2(k);
    assert s[..h] == s && s[h..] == [];
    assert HadBlocks([], k) == [];
  }

  /** The first two blocks of width 2^k, and the block of width 2^(k+1) they merge into. */
  lemma HadBlocksPair(s: Vec, k: nat)
    requires |s| >= Pow2(k + 1)
    ensures var h := Pow2(k); var x, y, rest := s[..h], s[h..2 * h], s[2 * h..];
      && HadBlocks(s, k) == Had(x, k) + Had(y, k) + HadBlocks(rest, k)
      && HadBlocks(s, k + 1) == Add(Had(x, k), Had(y, k)) + Sub(Had(x, k), Had(y, k)) + HadBlocks(rest, k + 1)
  {
    var h := Pow2(k);
    var x, y, rest := s[..h], s[h..2 * h], s[2 * h..];
    assert s[h..][..h] == y && s[h..][h..] == rest;
    assert s[..2 * h][..h] == x && s[..2 * h][h..] == y;
  }

  /** One butterfly of width h on [lo, lo + 2h) takes the cells `was` to `now`. */
  predicate Butterflied(was: Vec, now: Vec, lo: nat, h: nat) {
    && |now| == |was| && lo + 2 * h <= |was|
    && (forall p :: lo <= p < lo + h ==> now[p] == was[p] + was[p + h])
    && (forall p :: lo + h <= p < lo + 2 * h ==> now[p] == was[p - h] - was[p])
    && (forall p :: 0 <= p < |was| && !(lo <= p < lo + 2 * h) ==> now[p] == was[p])
  }

  /** The innermost loop: one butterfly of width h on the cells [lo, lo + 2h). */
  method Butterfly(buf: array<real>, lo: nat, h: nat)
    requires lo + 2 * h <= buf.Length
    modifies buf
    ensures Butterflied(old(buf[..]), buf[..], lo, h)
  {
    ghost var was := buf[..];
    for j := lo to lo + h
      invariant forall p :: lo <= p < j ==> buf[p] == was[p] + was[p + h]
      invariant forall p :: lo + h <= p < j + h ==> buf[p] == was[p - h] - was[p]
      invariant forall p :: 0 <= p < buf.Length && !(lo <= p < j) && !(lo + h <= p < j + h) ==> buf[p] == was[p]
    {
      var x := buf[j];
      var y := buf[j + h];
      buf[j] := x + y;
      buf[j + h] := x - y;
    }
  }

  /** The cells are `middle` between the untouched `front` and `back`. */
  predicate Framed(cells: Vec, front: Vec, middle: Vec, back: Vec) {
    cells == front + (middle + back)
  }

  /** Halfway through a pass: `done` holds the merged blocks up to i, the rest is as the previous pass left it. */
  ghost predicate Midway(cells: Vec, front: Vec, done: Vec, orig: Vec, i: nat, back: Vec, k: nat) {
    && i <= |orig| && |done| == i
    && cells == front + done + (HadBlocks(orig[i..], k) + back)
    && done + HadBlocks(orig[i..], k + 1) == HadBlocks(orig, k + 1)
  }

  /** The middle loop: one pass of width 2^k over the n cells from lo. */
  method Pass(buf: array<real>, lo: nat, n: nat, h: nat, ghost k: nat, ghost orig: Vec, ghost front: Vec, ghost back: Vec)
    requires h == Pow2(k) && Whole(n, 2 * h)
    requires lo == |front| && |orig| == n
    requires Framed(buf[..], front, HadBlocks(orig, k), back)
    modifies buf
    ensures Framed(buf[..], front, HadBlocks(orig, k + 1), back)
  {
    ghost var done: Vec := [];
    assert Midway(buf[..], front, done, orig, 0, back, k) by {
      assert orig == orig[0..] && front + done == front;
    }
    var i := 0;
    while i < n
      invariant 0 <= i <= n && Whole(n - i, 2 * h)
      invariant Midway(buf[..], front, done, orig, i, back, k)
      decreases n - i
    {
      ghost var was := buf[..];
      Butterfly(buf, lo + i, h);
      done := MergeBlocks(was, buf[..], front, done, orig, i, i + h * 2, back, k);
      i := i + h * 2;
    }
    EndOfPass(buf[..], front, done, orig, back, k);
  }

  lemma EndOfPass(cells: Vec, front: Vec, done: Vec, orig: Vec, back: Vec, k: nat)
    requires Midway(cells, front, done, orig, |orig|, back, k)
    ensures Framed(cells, front, HadBlocks(orig, k + 1), back)
  {
    assert HadBlocks(orig[|orig|..], k) == [] && HadBlocks(orig[|orig|..], k + 1) == [];
    assert front + done + ([] + back) == front + (done + back);
  }

  /** One step of the pass: the butterfly at |front + done| turns the next two blocks of width 2^k into one of width 2^(k+1). */
  lemma MergeBlocks(was: Vec, now: Vec, front: Vec, done: Vec, orig: Vec, i: nat, next: nat, back: Vec, k: nat) returns (more: Vec)
    requires next == i + 2 * Pow2(k) <= |orig|
    requires Midway(was, front, done, orig, i, back, k)
    requires Butterflied(was, now, |front| + i, Pow2(k))
    ensures Midway(now, front, more, orig, next, back, k)
  {
    var h, s := Pow2(k), orig[i..];
    var a, b := Had(s[..h], k), Had(s[h..2 * h], k);
    HadBlocksPair(s, k);
    assert s[2 * h..] == orig[next..];
    var merged := Add(a, b) + Sub(a, b);
    more := done + merged;
    var rest := HadBlocks(orig[next..], k);
    Reassociate(front, done, a, b, rest, back, merged, HadBlocks(orig[next..], k + 1));
    ButterflyAt(was, now, front + done, a, b, rest + back);
  }

  lemma Reassociate(front: Vec, done: Vec, a: Vec, b: Vec, rest: Vec, back: Vec, merged: Vec, rest': Vec)
    ensures front + done + ((a + b + rest) + back) == front + done + (a + (b + (rest + back)))
    ensures front + done + (merged + (rest + back)) == front + (done + merged) + (rest + back)
    ensures done + merged + rest' == done + (merged + rest')
  {
    assert (a + b + rest) + back == a + (b + (rest + back));
    assert front + done + (merged + (rest + back)) == front + (done + merged) + (rest + back);
  }

  lemma ButterflyAt(was: Vec, now: Vec, before: Vec, a: Vec, b: Vec, after: Vec)
    requires |a| == |b| && was == before + (a + (b + after))
    requires Butterflied(was, now, |before|, |a|)
    ensures now == before + ((Add(a, b) + Sub(a, b)) + after)
  {
    var lo, h := |before|, |a|;
    var result := before + ((Add(a, b) + Sub(a, b)) + after);
    forall p | 0 <= p < |now|
      ensures now[p] == result[p]
    {
      if p < lo {
        assert was[p] == before[p];
      } else if p < lo + h {
        assert was[p] == a[p - lo] && was[p + h] == b[p - lo];
      } else if p < lo + 2 * h {
        assert was[p - h] == a[p - h - lo] && was[p] == b[p - h - lo];
      } else {
        assert was[p] == after[p - lo - 2 * h];
      }
    }
  }

  /** The cells with the block of length 2^k at lo transformed. */
  function TransformAt(cells: Vec, lo: nat, k: nat, c: real): (r: Vec)
    requires lo + Pow2(k) <= |cells|
    ensures |r| == |cells|
  {
    cells[..lo] + (Fwht(cells[lo..lo + Pow2(k)], k, c) + cells[lo + Pow2(k)..])
  }

  /** The outer loop over widths 1, 2, 4, ... */
  method AllPasses(buf: array<real>, lo: nat, n: nat, ghost k: nat, ghost front: Vec, ghost orig: Vec, ghost back: Vec)
    requires lo == |front| && n == |orig| == Pow2(k)
    requires Framed(buf[..], front, orig, back)
    modifies buf
    ensures Framed(buf[..], front, Had(orig, k), back)
  {
    HadBlocksOne(orig);
    var h := 1;
    ghost var j := 0;
    while h < n
      invariant j <= k && h == Pow2(j)
      invariant Framed(buf[..], front, HadBlocks(orig, j), back)
      decreases k - j
    {
      Pow2Order(j, k);
      Pow2Whole(k, j + 1);
      Pass(buf, lo, n, h, j, orig, front, back);
      h := h * 2;
      j := j + 1;
    }
    Pow2Order(j, k);
    HadBlocksSingle(orig, k);
  }

  /** The whole transform on the n = 2^k cells from lo: the passes, then the scaling loop. */
  method FwhtInPlace(buf: array<real>, lo: nat, n: nat, invSqrtN: real, ghost k: nat)
    requires lo + n <= buf.Length && n == Pow2(k)
    modifies buf
    ensures buf[..] == TransformAt(old(buf[..]), lo, k, invSqrtN)
  {
    Pow2Order(0, k);
    ghost var cells := buf[..];
    ghost var front, orig, back := cells[..lo], cells[lo..lo + n], cells[lo + n..];
    SplitFrame(cells, lo, n);
    if n <= 1 {
      return;
    }
    AllPasses(buf, lo, n, k, front, orig, back);
    ScaleCells(buf, lo, n, invSqrtN, front, Had(orig, k), back);
  }

  lemma SplitFrame(cells: Vec, lo: nat, n: nat)
    requires lo + n <= |cells|
    ensures Framed(cells, cells[..lo], cells[lo..lo + n], cells[lo + n..])
  {
  }

  /** The final scaling loop. */
  method ScaleCells(buf: array<real>, lo: nat, n: nat, c: real, ghost front: Vec, ghost middle: Vec, ghost back: Vec)
    requires lo == |front| && n == |middle| && Framed(buf[..], front, middle, back)
    modifies buf
    ensures Framed(buf[..], front, Scale(middle, c), back)
  {
    ghost var was := buf[..];
    for i := 0 to n
      invariant forall p :: lo <= p < lo + i ==> buf[p] == Times(was[p], c)
      invariant forall p :: 0 <= p < buf.Length && !(lo <= p < lo + i) ==> buf[p] == was[p]
    {
      buf[lo + i] := Times(buf[lo + i], c);
    }
  }
}
