/** Single bits of 64-bit words. */
module Bits {

  const ALL: bv64 := 0xFFFF_FFFF_FFFF_FFFF

  // ---------- bits ----------

  predicate BitAt(w: bv64, t: bv64)
    requires t < 64
  {
    (w >> t) & 1 == 1
  }

  /** i as a shift count. */
  function Counter(i: nat): bv7 {
    if i == 0 then 0 else Counter(i - 1) + 1
  }

  lemma CounterNext(t: bv7)
    requires t < 64
    ensures (t + 1) as nat == t as nat + 1
  {
  }

  lemma CounterSmall(t: bv7)
    ensures t as nat < 64 <==> t < 64
  {
  }

  lemma {:induction false} CounterIs(i: nat)
    requires i <= 64
    ensures Counter(i) as nat == i
  {
    if i > 0 {
      CounterIs(i - 1);
      CounterSmall(Counter(i - 1));
      CounterNext(Counter(i - 1));
    }
  }

  function Wide(t: bv7): (u: bv64)
    ensures t < 64 ==> u < 64
    ensures t <= 64 ==> u <= 64
  {
    t as bv64
  }

  function Pos(i: nat): (t: bv64)
    requires i < 64
    ensures t < 64
  {
    CounterIs(i);
    CounterSmall(Counter(i));
    Wide(Counter(i))
  }

  predicate Bit(w: bv64, i: nat)
    requires i < 64
  {
    BitAt(w, Pos(i))
  }

  lemma WideInjective(a: bv7, b: bv7)
    requires Wide(a) == Wide(b)
    ensures a == b
  {
  }

  lemma PosInjective(i: nat, j: nat)
    requires i < 64 && j < 64 && Pos(i) == Pos(j)
    ensures i == j
  {
    WideInjective(Counter(i), Counter(j));
    CounterIs(i);
    CounterIs(j);
  }

  lemma PosDistinct(i: nat, j: nat)
    requires i < 64 && j < 64
    ensures Pos(i) == Pos(j) <==> i == j
  {
    if Pos(i) == Pos(j) { PosInjective(i, j); }
  }

  function SetAt(w: bv64, t: bv64): bv64
    requires t < 64
  {
    w | (1 << t)
  }

  function ClearAt(w: bv64, t: bv64): bv64
    requires t < 64
  {
    w & !(1 << t)
  }

  function TestAt(w: bv64, t: bv64): bool
    requires t < 64
  {
    w & (1 << t) != 0
  }

  lemma SetBitAt(w: bv64, t: bv64, u: bv64)
    requires t < 64 && u < 64
    ensures BitAt(SetAt(w, t), u) <==> (t == u || BitAt(w, u))
  {
    SetBitHere(w, t);
    SetBitElsewhere(w, t, u);
  }

  lemma SetBitHere(w: bv64, t: bv64)
    requires t < 64
    ensures BitAt(SetAt(w, t), t)
  {
  }

  lemma SetBitElsewhere(w: bv64, t: bv64, u: bv64)
    requires t < 64 && u < 64
    ensures t != u ==> (BitAt(SetAt(w, t), u) <==> BitAt(w, u))
  {
  }

  lemma ClearBitAt(w: bv64, t: bv64, u: bv64)
    requires t < 64 && u < 64
    ensures BitAt(ClearAt(w, t), u) <==> (t != u && BitAt(w, u))
  {
    ClearBitHere(w, t);
    ClearBitElsewhere(w, t, u);
  }

  lemma ClearBitHere(w: bv64, t: bv64)
    requires t < 64
    ensures !BitAt(ClearAt(w, t), t)
  {
  }

  lemma ClearBitElsewhere(w: bv64, t: bv64, u: bv64)
    requires t < 64 && u < 64
    ensures t != u ==> (BitAt(ClearAt(w, t), u) <==> BitAt(w, u))
  {
  }

  lemma TestBitAt(w: bv64, t: bv64)
    requires t < 64
    ensures TestAt(w, t) <==> BitAt(w, t)
  {
  }

  lemma SetBit(w: bv64, i: nat, j: nat)
    requires i < 64 && j < 64
    ensures Bit(SetAt(w, Pos(i)), j) <==> (i == j || Bit(w, j))
  {
    PosDistinct(i, j);
    SetBitAt(w, Pos(i), Pos(j));
  }

  lemma ClearBit(w: bv64, i: nat, j: nat)
    requires i < 64 && j < 64
    ensures Bit(ClearAt(w, Pos(i)), j) <==> (i != j && Bit(w, j))
  {
    PosDistinct(i, j);
    ClearBitAt(w, Pos(i), Pos(j));
  }

  lemma InvertBitAt(w: bv64, t: bv64)
    requires t < 64
    ensures BitAt(!w, t) <==> !BitAt(w, t)
  {
  }

  lemma ConstantBits(t: bv64)
    requires t < 64
    ensures BitAt(ALL, t) && !BitAt(0, t)
  {
  }

  // ---------- the lowest set bit ----------

  /** The bits below t are zero. */
  predicate LowZero(x: bv64, t: bv64)
    requires t <= 64
  {
    x & ((1 << t) - 1) == 0
  }

  lemma LowZeroNext(x: bv64, t: bv64)
    requires t < 64 && LowZero(x, t) && !BitAt(x, t)
    ensures LowZero(x, t + 1)
  {
  }

  lemma LowZeroAll(x: bv64)
    requires LowZero(x, 64)
    ensures x == 0
  {
  }

  /** Subtracting one and masking clears the lowest set bit ... */
  lemma LowestCleared(x: bv64, t: bv64)
    requires t < 64 && BitAt(x, t) && LowZero(x, t)
    ensures x & (x - 1) == ClearAt(x, t)
  {
  }

  /** ... and no other. */
  lemma ClearLowest(x: bv64, t: bv64, u: bv64)
    requires t < 64 && u < 64 && BitAt(x, t) && LowZero(x, t)
    ensures BitAt(x & (x - 1), u) <==> (u != t && BitAt(x, u))
  {
    LowestCleared(x, t);
    ClearBitAt(x, t, u);
  }

  lemma WideNext(t: bv7)
    requires t < 64
    ensures Wide(t + 1) == Wide(t) + 1
  {
  }

  /** A zero bit at t moves the search on; the last bit cannot be zero as well. */
  lemma SearchOn(x: bv64, t: bv7)
    requires x != 0 && t < 64 && LowZero(x, Wide(t)) && !BitAt(x, Wide(t))
    ensures t != 63 && LowZero(x, Wide(t + 1))
  {
    WideNext(t);
    LowZeroNext(x, Wide(t));
    if t == 63 { LowZeroAll(x); }
  }

  lemma {:induction false} CounterTrip(t: bv7, i: nat)
    requires t < 64 && i == t as nat
    ensures i < 64 && Counter(i) == t
  {
    CounterSmall(t);
    CounterIs(i);
    NatInjective(Counter(i), t);
  }

  lemma NatInjective(a: bv7, b: bv7)
    requires a as nat == b as nat
    ensures a == b
  {
  }

  /** The index of the lowest set bit. */
  method TrailingZeros(x: bv64) returns (t: bv7)
    requires x != 0
    ensures t < 64 && BitAt(x, Wide(t)) && LowZero(x, Wide(t))
  {
    t := 0;
    LowZeroNothing(x);
    while !BitAt(x, Wide(t))
      invariant t < 64 && LowZero(x, Wide(t))
      decreases 64 - t as nat
    {
      SearchOn(x, t);
      CounterNext(t);
      CounterSmall(t);
      t := t + 1;
    }
  }

  lemma LowZeroNothing(x: bv64)
    ensures LowZero(x, Wide(0))
  {
  }
}
