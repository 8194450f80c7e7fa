/** The chained 64-bit hash that keys the prefix cache (FNV-1a over little-endian token bytes). */
module ChunkHash {

  type Word = bv64
  type Token = t: int | 0 <= t < 0x1_0000_0000

  /** A 64-bit key. */
  datatype Hash = Hash(bits: Word)

  /** The predecessor of a first chunk. */
  const NO_HASH := Hash(0)

  const OFFSET: Word := 0xCBF29CE484222325
  const SEPARATOR: Word := 0x9E3779B97F4A7C15

  /** Where the byte loop starts: a first chunk has no predecessor. */
  function Seed(prev: Word): Word {
    if prev == 0 then OFFSET else prev ^ SEPARATOR
  }

  /** Undoes one byte; 0xCE965057AFF6957B is the inverse of the prime modulo 2^64. */
  function Unmix(h: Word, b: bv8): Word {
    (h * 0xCE965057AFF6957B) ^ (b as bv64)
  }

  lemma PrimeIsInvertible(h: Word, b: Word)
    ensures (((h ^ b) * 0x100000001B3) * 0xCE965057AFF6957B) ^ b == h
  {
  }

  lemma UnmixStep(h: Word, b: bv8, mixed: Word)
    requires mixed == (h ^ (b as bv64)) * 0x100000001B3
    ensures Unmix(mixed, b) == h
  {
    PrimeIsInvertible(h, b as bv64);
  }

  /** One byte: xor, then multiply by the 64-bit FNV prime modulo 2^64. */
  function Mix(h: Word, b: bv8): Word {
    (h ^ (b as bv64)) * 0x100000001B3
  }

  lemma UnmixMix(h: Word, b: bv8)
    ensures Unmix(Mix(h, b), b) == h
  {
    UnmixStep(h, b, Mix(h, b));
  }

  /** The little-endian bytes of a token. */
  function Byte(t: Token, i: nat): bv8
    requires i < 4
  {
    if i == 0 then (t % 0x100) as bv8
    else if i == 1 then (t / 0x100 % 0x100) as bv8
    else if i == 2 then (t / 0x1_0000 % 0x100) as bv8
    else (t / 0x100_0000 % 0x100) as bv8
  }

  /** The first n little-endian bytes of one token. */
  function MixBytes(h: Word, t: Token, n: nat): Word
    requires n <= 4
  {
    if n == 0 then h else Mix(MixBytes(h, t, n - 1), Byte(t, n - 1))
  }

  function MixTokens(h: Word, tokens: seq<Token>): Word {
    if |tokens| == 0 then h else MixBytes(MixTokens(h, tokens[..|tokens| - 1]), tokens[|tokens| - 1], 4)
  }

  function ChunkKey(prev: Hash, tokens: seq<Token>): Hash {
    Hash(MixTokens(Seed(prev.bits), tokens))
  }

  method ComputeChunkHash(prev: Hash, tokens: seq<Token>) returns (key: Hash)
    ensures key == ChunkKey(prev, tokens)
  {
    var hash: Word := if prev.bits == 0 then OFFSET else prev.bits ^ SEPARATOR;
    for i := 0 to |tokens|
      invariant hash == MixTokens(Seed(prev.bits), tokens[..i])
    {
      ghost var before := hash;
      for j := 0 to 4
        invariant hash == MixBytes(before, tokens[i], j)
      {
        hash := Mix(hash, Byte(tokens[i], j));
      }
      assert tokens[..i + 1][..i] == tokens[..i];
    }
    assert tokens[..|tokens|] == tokens;
    key := Hash(hash);
  }

  // ---------- every byte step can be undone ----------

  function UnmixBytes(h: Word, t: Token, n: nat): Word
    requires n <= 4
    decreases n
  {
    if n == 0 then h else UnmixBytes(Unmix(h, Byte(t, n - 1)), t, n - 1)
  }

  function UnmixTokens(h: Word, tokens: seq<Token>): Word
    decreases |tokens|
  {
    if |tokens| == 0 then h else UnmixTokens(UnmixBytes(h, tokens[|tokens| - 1], 4), tokens[..|tokens| - 1])
  }

  lemma {:induction false} UnmixBytesMixBytes(h: Word, t: Token, n: nat)
    requires n <= 4
    ensures UnmixBytes(MixBytes(h, t, n), t, n) == h
  {
    if n > 0 {
      var before := MixBytes(h, t, n - 1);
      UnmixMix(before, Byte(t, n - 1));
      UnmixBytesMixBytes(h, t, n - 1);
    }
  }

  lemma {:induction false} UnmixTokensMixTokens(h: Word, tokens: seq<Token>)
    ensures UnmixTokens(MixTokens(h, tokens), tokens) == h
  {
    if |tokens| > 0 {
      var init, last := tokens[..|tokens| - 1], tokens[|tokens| - 1];
      UnmixBytesMixBytes(MixTokens(h, init), last, 4);
      UnmixTokensMixTokens(h, init);
    }
  }

  /** Distinct seeds never merge, whatever the chunk. */
  lemma MixTokensInjective(h: Word, k: Word, tokens: seq<Token>)
    requires MixTokens(h, tokens) == MixTokens(k, tokens)
    ensures h == k
  {
    UnmixTokensMixTokens(h, tokens);
    UnmixTokensMixTokens(k, tokens);
  }

  // ---------- the key as a function of the predecessor ----------

  /** The one predecessor whose seed coincides with that of a first chunk. */
  const ALIAS: Word := OFFSET ^ SEPARATOR

  lemma XorCancels(p: Word, q: Word, k: Word)
    ensures p ^ k == q ^ k <==> p == q
  {
  }

  lemma XorMoves(p: Word, q: Word, k: Word)
    ensures p ^ k == q <==> p == q ^ k
  {
  }

  lemma SeedsEqual(p: Word, q: Word)
    ensures Seed(p) == Seed(q) <==> (p == q || (p == 0 && q == ALIAS) || (p == ALIAS && q == 0))
  {
    if p == 0 {
      XorMoves(q, OFFSET, SEPARATOR);
    } else if q == 0 {
      XorMoves(p, OFFSET, SEPARATOR);
    } else {
      XorCancels(p, q, SEPARATOR);
    }
  }

  /** Equal chunks get equal keys exactly when their predecessors are equal, or are "none" and ALIAS. */
  lemma KeyDeterminesPredecessor(p: Hash, q: Hash, tokens: seq<Token>)
    ensures ChunkKey(p, tokens) == ChunkKey(q, tokens)
      <==> (p == q || (p == NO_HASH && q == Hash(ALIAS)) || (p == Hash(ALIAS) && q == NO_HASH))
  {
    SeedsEqual(p.bits, q.bits);
    if ChunkKey(p, tokens) == ChunkKey(q, tokens) {
      MixTokensInjective(Seed(p.bits), Seed(q.bits), tokens);
    }
  }

  /** Equal chunks under different parents never share a key. */
  lemma DifferentParentsDifferentKeys(p: Hash, q: Hash, tokens: seq<Token>)
    requires p != NO_HASH && q != NO_HASH && p != q
    ensures ChunkKey(p, tokens) != ChunkKey(q, tokens)
  {
    KeyDeterminesPredecessor(p, q, tokens);
  }

  // ---------- the bytes and the constants ----------

  /** The published FNV-1a value of the single byte "a". */
  lemma HashOfA()
    ensures Mix(OFFSET, 0x61) == 0xAF63DC4C8601EC8C
  {
  }

  lemma FourBytes(h: Word, t: Token)
    ensures MixBytes(h, t, 4) == Mix(Mix(Mix(Mix(h, Byte(t, 0)), Byte(t, 1)), Byte(t, 2)), Byte(t, 3))
  {
    assert MixBytes(h, t, 1) == Mix(MixBytes(h, t, 0), Byte(t, 0));
    assert MixBytes(h, t, 3) == Mix(MixBytes(h, t, 2), Byte(t, 2));
  }

  lemma KnownMixes()
    ensures Mix(Mix(Mix(Mix(OFFSET, 1), 2), 3), 4) == 0xBE7A5E775165785D
    ensures Mix(Mix(Mix(Mix(1 ^ SEPARATOR, 1), 2), 3), 4) == 0x0AD15C4E80D00648
  {
  }

  lemma OneToken(h: Word, t: Token)
    ensures MixTokens(h, [t]) == MixBytes(h, t, 4)
  {
    assert [t][..0] == [];
  }

  const EXAMPLE: Token := 0x04030201

  /** The bytes of a token are its digits to base 256, lowest first. */
  lemma KnownBytes()
    ensures Byte(EXAMPLE, 0) == 1 && Byte(EXAMPLE, 1) == 2 && Byte(EXAMPLE, 2) == 3 && Byte(EXAMPLE, 3) == 4
  {
  }

  lemma ExampleMixed(h: Word)
    ensures MixTokens(h, [EXAMPLE]) == Mix(Mix(Mix(Mix(h, 1), 2), 3), 4)
  {
    OneToken(h, EXAMPLE);
    FourBytes(h, EXAMPLE);
    KnownBytes();
  }

  /** The keys of the token with the bytes 1, 2, 3, 4, as a first chunk and behind the key 1. */
  lemma KnownKeys()
    ensures ChunkKey(NO_HASH, [EXAMPLE]) == Hash(0xBE7A5E775165785D)
    ensures ChunkKey(Hash(1), [EXAMPLE]) == Hash(0x0AD15C4E80D00648)
  {
    ExampleMixed(OFFSET);
    ExampleMixed(1 ^ SEPARATOR);
    KnownMixes();
  }
}
