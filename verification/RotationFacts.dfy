/** What the rotation does, piece by piece: its blocks, the orders its shuffle can give, and an example. */
module RotationFacts {
  import opened Common
  import opened Layout
  import opened Vectors
  import opened Hadamard
  import opened SplitMix
  import opened Rotation

  // ---------- every block on its own ----------

  /** The block of r at `at` is the transform of the block of s there. */
  predicate BlockDone(r: Vec, s: Vec, k: nat, c: real, at: nat) {
    at + Pow2(k) <= |s| == |r| && IsFwht(r[at..at + Pow2(k)], s[at..at + Pow2(k)], k, c)
  }

  predicate IsFwht(r: Vec, s: Vec, k: nat, c: real) {
    |s| == Pow2(k) && r == Fwht(s, k, c)
  }

  lemma LaterBlock(a: Vec, r: Vec, b: Vec, s: Vec, k: nat, c: real, at: nat, next: nat)
    requires |a| == |b| && next == |a| + at && BlockDone(r, s, k, c, at)
    ensures BlockDone(a + r, b + s, k, c, next)
  {
    var h := Pow2(k);
    LaterSlice(a, r, at, next, h);
    LaterSlice(b, s, at, next, h);
  }

  lemma FrontBlock(a: Vec, r: Vec, b: Vec, s: Vec, k: nat, c: real)
    requires |b| == Pow2(k) && |r| == |s| && a == Fwht(b, k, c)
    ensures BlockDone(a + r, b + s, k, c, 0)
  {
    assert (a + r)[0..|a|] == a && (b + s)[0..|b|] == b;
  }

  /** Block q of the result is the transform of block q. */
  lemma {:induction false} BlockIs(s: Vec, k: nat, c: real, q: nat)
    requires Span(q + 1, Pow2(k)) <= |s|
    ensures BlockDone(FwhtBlocks(s, k, c), s, k, c, Span(q, Pow2(k)))
    decreases q
  {
    var h := Pow2(k);
    SpanMono(1, q + 1, h);
    assert Span(1, h) == Span(0, h) + h;
    var front, rest := s[..h], s[h..];
    assert s == front + rest;
    FirstBlock(front, rest, k, c);
    if q == 0 {
      FrontBlock(Fwht(front, k, c), FwhtBlocks(rest, k, c), front, rest, k, c);
    } else {
      var before := q - 1;
      BlockIs(rest, k, c, before);
      LaterBlock(Fwht(front, k, c), FwhtBlocks(rest, k, c), front, rest, k, c, Span(before, h), Span(q, h));
    }
  }

  lemma LaterSlice(a: Vec, b: Vec, p: nat, q: nat, n: nat)
    requires p + n <= |b| && q == |a| + p
    ensures q + n <= |a + b| && (a + b)[q..q + n] == b[p..p + n]
  {
  }

  /** What is left after the last whole block is not touched. */
  lemma {:induction false} TailStays(s: Vec, k: nat, c: real, i: nat)
    requires i < |s| && |s| - |s| % Pow2(k) <= i
    ensures FwhtBlocks(s, k, c)[i] == s[i]
    decreases |s|
  {
    var h := Pow2(k);
    if |s| >= h {
      ModStep(|s|, h);
      TailStays(s[h..], k, c, i - h);
    }
  }

  lemma ModStep(n: nat, h: nat)
    requires 0 < h <= n
    ensures (n - h) % h == n % h && n - n % h >= h
  {
    DivUnique(n - h, h, n / h - 1, n % h);
  }

  // ---------- the shuffle reaches every order ----------

  /** The word that makes the draw at coordinate i choose j. */
  function Choosing(j: nat): Word {
    RawWord(j, seq(64, _ => false))
  }

  function Chosen(js: seq<nat>): Words {
    (t: nat) => Choosing(if t < |js| then js[t] else 0)
  }

  /** The first n coordinates of the vector are still to be chosen; the rest are as they are to be. */
  predicate Sorted(s: Vec, target: Vec, n: nat) {
    && n <= |s| == |target| && s[n..] == target[n..] && multiset(s[..n]) == multiset(target[..n])
  }

  lemma ChooseNext(s: Vec, target: Vec, n: nat, last: nat) returns (j: nat, next: Vec)
    requires n > 0 && last == n - 1 && Sorted(s, target, n)
    ensures j < n && next == Exchange(s, (last, j)) && Sorted(next, target, last)
  {
    assert target[last] == target[..n][last];
    assert target[last] in multiset(s[..n]);
    j :| 0 <= j < n && s[..n][j] == target[last];
    next := Exchange(s, (last, j));
    ExchangedBeginning(s, next, n, last, j);
    SortedOn(s, next, target, n, last, j);
  }

  lemma SortedOn(s: Vec, next: Vec, target: Vec, n: nat, last: nat, j: nat)
    requires n > 0 && last == n - 1 && j < n && Sorted(s, target, n) && next == Exchange(s, (last, j)) && s[j] == target[last]
    requires multiset(next[..n]) == multiset(s[..n])
    ensures Sorted(next, target, last)
  {
    EndsAlike(s, next, target, n, last, j);
    DropLast(next, n, last);
    DropLast(target, n, last);
  }

  lemma DropLast(s: Vec, n: nat, last: nat)
    requires n > 0 && last == n - 1 && n <= |s|
    ensures multiset(s[..last]) == multiset(s[..n]) - multiset{s[last]}
  {
    assert s[..n] == s[..last] + [s[last]];
  }

  lemma EndsAlike(s: Vec, next: Vec, target: Vec, n: nat, last: nat, j: nat)
    requires n > 0 && last == n - 1 && j < n <= |s| == |target| && s[n..] == target[n..] && next == Exchange(s, (last, j)) && s[j] == target[last]
    ensures next[last..] == target[last..]
  {
    assert next[n..] == s[n..];
    assert next[last..] == [next[last]] + next[n..] && target[last..] == [target[last]] + target[n..];
  }

  lemma ExchangedBeginning(s: Vec, next: Vec, n: nat, last: nat, j: nat)
    requires j <= last < n <= |s| && next == Exchange(s, (last, j))
    ensures |next| == |s| && multiset(next[..n]) == multiset(s[..n])
  {
    assert next[..n] == s[..n][last := s[..n][j]][j := s[..n][last]];
  }

  /** From any order to any other: some choices of the swaps lead there. */
  lemma {:induction false} ChooseAll(s: Vec, target: Vec, dim: nat, n: nat) returns (js: seq<nat>)
    requires dim == |s| && 1 <= n && Sorted(s, target, n)
    ensures |js| == n - 1 && forall t :: 0 <= t < |js| ==> js[t] <= n - 1 - t
    ensures ValidSwaps(SwapsOf(js, n), dim) && ApplySwaps(s, SwapsOf(js, n)) == target
    decreases n
  {
    if n == 1 {
      js := [];
      assert s[..1] == [s[0]] && target[..1] == [target[0]];
      assert s[0] in multiset(target[..1]);
      assert s == s[..1] + s[1..] && target == target[..1] + target[1..];
      assert SwapsOf(js, n) == [];
    } else {
      var last := n - 1;
      var j, next := ChooseNext(s, target, n, last);
      var rest := ChooseAll(next, target, dim, last);
      js := [j] + rest;
      assert SwapsOf(js, n) == [(last, j)] + SwapsOf(rest, last);
      FirstSwap(s, (last, j), SwapsOf(rest, last));
    }
  }

  /** Swaps from coordinate n - 1 down, with the coordinates chosen. */
  function SwapsOf(js: seq<nat>, n: nat): (r: seq<Swap>)
    requires |js| < n
    ensures |r| == |js|
  {
    seq(|js|, t requires 0 <= t < |js| => (n - 1 - t, js[t]))
  }

  lemma {:induction false} FirstSwap(s: Vec, x: Swap, rest: seq<Swap>)
    requires x.0 < |s| && x.1 < |s| && ValidSwaps(rest, |s|)
    ensures ValidSwaps([x] + rest, |s|) && ApplySwaps(s, [x] + rest) == ApplySwaps(Exchange(s, x), rest)
    decreases |rest|
  {
    var all := [x] + rest;
    if |rest| == 0 {
      assert all[..0] == [] && all[0] == x;
    } else {
      var m := |rest| - 1;
      assert all[..|all| - 1] == [x] + rest[..m];
      FirstSwap(s, x, rest[..m]);
    }
  }

  lemma SmallRemainder(j: nat, i: nat)
    requires j <= i
    ensures j % (i + 1) == j
  {
  }

  lemma ChosenSwaps(js: seq<nat>, n: nat)
    requires n >= 1 && |js| == n - 1 && forall t :: 0 <= t < |js| ==> js[t] <= n - 1 - t
    ensures DrawSwaps(Chosen(js), n, 0) == SwapsOf(js, n)
  {
    forall t | 0 <= t < n - 1 ensures DrawSwaps(Chosen(js), n, 0)[t] == SwapsOf(js, n)[t] {
      SmallRemainder(js[t], n - 1 - t);
    }
  }

  /** The shuffle can give every order: for any rearrangement of the vector there is a stream whose swaps produce it. */
  lemma EveryOrder(s: Vec, target: Vec) returns (words: Words)
    requires |s| >= 1 && multiset(s) == multiset(target)
    ensures ApplySwaps(s, DrawSwaps(words, |s|, 0)) == target
  {
    var n := |s|;
    assert |multiset(s)| == |s| && |multiset(target)| == |target|;
    assert s[..n] == s && target[..n] == target;
    var js := ChooseAll(s, target, n, n);
    words := Chosen(js);
    ChosenSwaps(js, n);
  }

  // ---------- an example ----------

  function Constant(n: nat, x: real): (r: Vec)
    ensures |r| == n
  {
    seq(n, _ => x)
  }

  /** The first unit vector. */
  function Unit(n: nat): (r: Vec)
    ensures |r| == n
  {
    seq(n, i => if i == 0 then 1.0 else 0.0)
  }

  lemma {:induction false} HadZeros(k: nat)
    ensures Had(Constant(Pow2(k), 0.0), k) == Constant(Pow2(k), 0.0)
  {
    if k > 0 {
      var m, zeros := Pow2(k - 1), Constant(Pow2(k), 0.0);
      HadZeros(k - 1);
      assert zeros[..m] == Constant(m, 0.0) && zeros[m..] == Constant(m, 0.0);
    }
  }

  lemma {:induction false} HadUnit(k: nat)
    ensures Had(Unit(Pow2(k)), k) == Constant(Pow2(k), 1.0)
  {
    if k > 0 {
      var below := k - 1;
      var m, unit := Pow2(below), Unit(Pow2(k));
      HadUnit(below);
      HadZeros(below);
      assert unit[..m] == Unit(m) && unit[m..] == Constant(m, 0.0);
    }
  }

  lemma {:induction false} IdleSwaps(s: Vec, swaps: seq<Swap>)
    requires ValidSwaps(swaps, |s|) && forall t :: 0 <= t < |swaps| ==> swaps[t].0 == swaps[t].1
    ensures ApplySwaps(s, swaps) == s
    decreases |swaps|
  {
    if |swaps| > 0 { IdleSwaps(s, swaps[..|swaps| - 1]); }
  }

  function OnlyFirst(): Word {
    RawWord(0, seq(64, i => i == 0))
  }

  /** A stream whose first round swaps and flips nothing and whose second only flips coordinate 0, for 64 coordinates. */
  function ExampleWords(): Words {
    (t: nat) =>
      if t < 63 then Choosing(63 - t)
      else if 64 <= t < 127 then Choosing(127 - t)
      else if t == 127 then OnlyFirst()
      else Choosing(0)
  }

  lemma ExampleSwaps(s: Vec, base: nat)
    requires |s| == 64 && (base == 0 || base == 64)
    ensures ApplySwaps(s, DrawSwaps(ExampleWords(), 64, base)) == s
  {
    var swaps := DrawSwaps(ExampleWords(), 64, base);
    forall t | 0 <= t < |swaps| ensures swaps[t].0 == swaps[t].1 {
      SmallRemainder(63 - t, 63 - t);
    }
    IdleSwaps(s, swaps);
  }

  lemma ExampleFlips(s: Vec, base: nat)
    requires |s| == 64 && (base == 63 || base == 127)
    ensures FlipSigns(s, DrawSigns(ExampleWords(), 1, base)) == if base == 63 then s else s[0 := -s[0]]
  {
  }

  lemma OneBlock(s: Vec, k: nat, c: real)
    requires |s| == Pow2(k)
    ensures FwhtBlocks(s, k, c) == Fwht(s, k, c)
  {
    assert s[..Pow2(k)] == s && s[Pow2(k)..] == [];
  }

  lemma FwhtUnit(k: nat, c: real)
    requires k > 0
    ensures Fwht(Unit(Pow2(k)), k, c) == Constant(Pow2(k), c)
  {
    HadUnit(k);
  }

  lemma FlippedConstant(n: nat, x: real, y: real)
    requires n > 0 && y == 2.0 * x
    ensures Constant(n, x)[0 := -x] == Sub(Constant(n, x), Scale(Unit(n), y))
  {
    assert Times(1.0, y) == y && Times(0.0, y) == 0.0;
  }

  lemma ScaledConstant(n: nat, x: real, y: real)
    ensures Scale(Constant(n, x), y) == Constant(n, Times(x, y))
  {
  }

  lemma SecondRound(k: nat, c: real)
    requires k > 0 && InverseRoot(c, k)
    ensures Fwht(Constant(Pow2(k), c)[0 := -c], k, c) == Sub(Unit(Pow2(k)), Constant(Pow2(k), Times(c, 2.0 * c)))
  {
    var n, z := Pow2(k), 2.0 * c;
    FlippedConstant(n, c, z);
    FwhtUnit(k, c);
    FwhtSelfInverse(Unit(n), k, c);
    FwhtLinear(Constant(n, c), Scale(Unit(n), z), k, c, z);
    FwhtLinear(Unit(n), Unit(n), k, c, z);
    ScaledConstant(n, c, z);
  }

  lemma FirstExampleRound()
    ensures Forward(Unit(64), DrawPlan(ExampleWords(), 64, 0), 6, 0.125) == Constant(64, 0.125)
  {
    assert Pow2(6) == 64;
    ExampleSwaps(Unit(64), 0);
    ExampleFlips(Unit(64), 63);
    OneBlock(Unit(64), 6, 0.125);
    FwhtUnit(6, 0.125);
  }

  lemma SecondExampleRound()
    ensures Forward(Constant(64, 0.125), DrawPlan(ExampleWords(), 64, 64), 6, 0.125) == Constant(64, -0.03125)[0 := 0.96875]
  {
    var mid := Constant(64, 0.125);
    assert Pow2(6) == 64;
    ExampleSwaps(mid, 64);
    ExampleFlips(mid, 127);
    OneBlock(mid[0 := -0.125], 6, 0.125);
    SecondRound(6, 0.125);
    assert Times(0.125, 2.0 * 0.125) == 0.03125;
    assert Sub(Unit(64), Constant(64, 0.03125)) == Constant(64, -0.03125)[0 := 0.96875];
  }

  /** 64 coordinates are one block, and there are two rounds: with that stream the first unit vector becomes 31/32 followed by
      sixty-three times -1/32. */
  lemma UnitExample()
    ensures Rotate(Unit(64), 0.125, ExampleWords()) == Constant(64, -0.03125)[0 := 0.96875]
  {
    FirstExampleRound();
    SecondExampleRound();
    assert BlockExponent(64) == 6 && RoundDraws(64) == 64;
  }
}
