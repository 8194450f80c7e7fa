/** The SplitMix64 generator that seeds TurboQuant's rotation, and the view of its words the rotation uses. */
module SplitMix {

  /** What the rotation reads of one 64-bit draw: its high half, for a swap target, and its bits, for 64 signs. */
  datatype RawWord = RawWord(high: nat, bits: seq<bool>)

  type Word = w: RawWord | |w.bits| == 64 witness RawWord(0, seq(64, _ => false))

  /** A generator as the sequence of words it will produce. */
  type Words = nat -> Word

  const ROTATION_SEED: bv64 := 0x517cc1b727220a95

  function Advance(state: bv64): bv64 {
    state + 0x9e3779b97f4a7c15
  }

  function Mix(state: bv64): bv64 {
    var z0 := (state ^ (state >> 30)) * 0xbf58476d1ce4e5b9;
    var z1 := (z0 ^ (z0 >> 27)) * 0x94d049bb133111eb;
    z1 ^ (z1 >> 31)
  }

  /** The generator's state after n draws. */
  function After(seed: bv64, n: nat): bv64 {
    if n == 0 then seed else Advance(After(seed, n - 1))
  }

  predicate Bit(word: bv64, i: nat)
    requires i < 64
  {
    (word >> (i as bv7)) & 1 == 1
  }

  function High(word: bv64): nat {
    (word >> 32) as nat
  }

  function View(word: bv64): Word {
    RawWord(High(word), seq(64, i requires 0 <= i < 64 => Bit(word, i)))
  }

  function SplitMixWords(seed: bv64): Words {
    (n: nat) => View(Mix(After(seed, n + 1)))
  }

  function Seed(dim: nat): bv64 {
    ROTATION_SEED ^ ((dim % 0x1_0000_0000_0000_0000) as bv64)
  }

  class SplitMix64 {
    ghost const seed: bv64
    ghost var drawn: nat
    var state: bv64

    ghost predicate Valid()
      reads this
    {
      state == After(seed, drawn)
    }

    constructor (s: bv64)
      ensures Valid() && seed == s && drawn == 0
    {
      seed, drawn, state := s, 0, s;
    }

    method NextU64() returns (word: bv64)
      requires Valid()
      modifies this
      ensures Valid() && drawn == old(drawn) + 1
      ensures View(word) == SplitMixWords(seed)(old(drawn))
    {
      state := Advance(state);
      drawn := drawn + 1;
      word := Mix(state);
    }

    method NextU32() returns (word: nat)
      requires Valid()
      modifies this
      ensures Valid() && drawn == old(drawn) + 1
      ensures word == SplitMixWords(seed)(old(drawn)).high
    {
      var w := NextU64();
      word := High(w);
    }
  }

  // ---------- known values ----------

  /** The first three outputs of SplitMix64 for the seed 0, as published with the generator. */
  lemma KnownOutputs()
    ensures Mix(After(0, 1)) == 0xE220A8397B1DCDAF && Mix(After(0, 2)) == 0x6E789E6AA1B965F4 && Mix(After(0, 3)) == 0x06C45D188009454F
  {
    assert After(0, 1) == Advance(After(0, 0));
    assert After(0, 2) == Advance(After(0, 1));
    assert After(0, 3) == Advance(After(0, 2));
  }

  /** The view of a word: its upper half, and its bits from the lowest on. */
  lemma KnownView()
    ensures var w := View(0x1234_5678_8000_0005);
      w.high == 0x1234_5678 && w.bits[0] && !w.bits[1] && w.bits[2] && !w.bits[3] && w.bits[31] && !w.bits[32] && w.bits[35]
  {
  }

  /** The rotation of 64 coordinates is seeded with the fixed seed and the dimension. */
  lemma KnownSeed()
    ensures Seed(64) == 0x517CC1B727220AD5
  {
    assert 64 % 0x1_0000_0000_0000_0000 == 64;
    assert 64 as bv64 == 0x40;
  }
}
