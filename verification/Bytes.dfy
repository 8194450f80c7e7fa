/** Little-endian numbers and alignment in byte sequences. */
module Bytes {

  type byte = x: int | 0 <= x < 256

  type Data = seq<byte>

  function Pow256(k: nat): nat {
    if k == 0 then 1 else 256 * Pow256(k - 1)
  }

  /** n in k little-endian bytes. */
  function Le(n: nat, k: nat): (d: Data)
    ensures |d| == k
  {
    if k == 0 then [] else [(n % 256) as byte] + Le(n / 256, k - 1)
  }

  /** The number in all bytes of d, little-endian. */
  function FromLe(d: Data): nat {
    if |d| == 0 then 0 else d[0] + 256 * FromLe(d[1..])
  }

  lemma {:induction false} LeRoundTrip(n: nat, k: nat)
    requires n < Pow256(k)
    ensures FromLe(Le(n, k)) == n
  {
    if k > 0 {
      assert n / 256 < Pow256(k - 1);
      LeRoundTrip(n / 256, k - 1);
      assert Le(n, k)[1..] == Le(n / 256, k - 1);
    }
  }

  // ---------- what stands where ----------

  /** The bytes e stand in b from position p on. */
  predicate At(b: Data, p: nat, e: Data) {
    p + |e| <= |b| && b[p..p + |e|] == e
  }

  lemma AtSplit(b: Data, p: nat, e: Data, f: Data, q: nat)
    requires At(b, p, e + f) && q == p + |e|
    ensures At(b, p, e) && At(b, q, f)
  {
    assert b[p..p + |e + f|][..|e|] == e;
    assert b[p..p + |e + f|][|e|..] == f;
  }

  lemma AtWhole(a: Data, e: Data, c: Data)
    ensures At(a + (e + c), |a|, e)
  {
  }

  // ---------- alignment ----------

  /** x & !m, bit by bit. */
  function AndNot(x: nat, m: nat): nat {
    if x == 0 then 0 else 2 * AndNot(x / 2, m / 2) + if x % 2 == 1 && m % 2 == 0 then 1 else 0
  }

  /** (x + a - 1) & !(a - 1); a zero alignment wraps around to offset zero. */
  function AlignUp(x: nat, a: nat): nat {
    if a == 0 then 0 else AndNot(x + (a - 1), a - 1)
  }

  lemma {:induction false} AndNotZero(x: nat)
    ensures AndNot(x, 0) == x
  {
    if x > 0 { AndNotZero(x / 2); }
  }

  lemma AndNotHalf(x: nat, m: nat, y: nat)
    requires y == x / 2
    ensures AndNot(x, 2 * m + 1) == 2 * AndNot(y, m)
  {
    assert (2 * m + 1) / 2 == m && (2 * m + 1) % 2 == 1;
  }

  lemma AndNot7(x: nat, y: nat)
    requires y == x / 8
    ensures AndNot(x, 7) == 8 * y
  {
    var x1 := x / 2;
    var x2 := x1 / 2;
    AndNotHalf(x, 3, x1);
    AndNotHalf(x1, 1, x2);
    AndNotHalf(x2, 0, x2 / 2);
    AndNotZero(x2 / 2);
  }

  lemma AndNot31(x: nat)
    ensures AndNot(x, 31) == x / 32 * 32
  {
    var x1 := x / 2;
    var x2 := x1 / 2;
    AndNotHalf(x, 15, x1);
    AndNotHalf(x1, 7, x2);
    AndNot7(x2, x2 / 8);
    assert x2 / 8 == x / 32;
  }

  /** Rounding up to 32: the next multiple, less than 32 away. */
  lemma Align32(x: nat)
    ensures x <= AlignUp(x, 32) < x + 32 && AlignUp(x, 32) % 32 == 0
  {
    AndNot31(x + 31);
  }

  lemma Align32Add(x: nat, y: nat, sum: nat)
    requires x % 32 == 0 && sum == x + AlignUp(y, 32)
    ensures sum % 32 == 0
  {
    Align32(y);
    MultiplesAdd(x, AlignUp(y, 32));
  }

  lemma MultiplesAdd(x: nat, y: nat)
    requires x % 32 == 0 && y % 32 == 0
    ensures (x + y) % 32 == 0
  {
  }
}
