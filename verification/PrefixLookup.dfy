/** Lookups in a cache of delta chunks whose chained hashes do not collide. */
module PrefixLookup {
  import opened Common
  import opened ChunkHash
  import opened PrefixCache
  import opened PrefixInvariant

  // ---------- whole chunks ----------

  /** How many whole chunks n tokens hold. */
  function Count(n: nat, size: nat): nat
    requires size > 0
  {
    if n < size then 0 else Count(n - size, size) + 1
  }

  lemma {:induction false} CountTimes(n: nat, size: nat)
    requires size > 0 && Whole(n, size)
    ensures Count(n, size) * size == n
  {
    if n > 0 {
      CountTimes(n - size, size);
      var k := Count(n - size, size);
      assert (k + 1) * size == k * size + size;
    }
  }

  lemma {:induction false} WholeIsMod(n: nat, size: nat)
    requires size > 0
    ensures Whole(n, size) <==> n % size == 0
    ensures n / size == Count(n, size)
  {
    if n >= size {
      WholeIsMod(n - size, size);
      DivStep(n - size, size);
    } else {
      DivSmall(n, size);
    }
  }

  lemma DivSmall(n: nat, size: nat)
    requires n < size
    ensures n / size == 0 && n % size == n
  {
  }

  lemma DivStep(n: nat, size: nat)
    requires size > 0
    ensures (n + size) / size == n / size + 1 && (n + size) % size == n % size
  {
    var q, r := n / size, n % size;
    assert n + size == (q + 1) * size + r by { assert (q + 1) * size == q * size + size; }
    DivUnique(n + size, size, q + 1, r);
  }

  // ---------- the chains in use ----------

  /** `used` holds the prompts that reach the cache with all their beginnings; this is one of them. */
  ghost predicate Covers(used: iset<seq<Token>>, tokens: seq<Token>) {
    forall n :: 0 <= n <= |tokens| ==> tokens[..n] in used
  }

  predicate Collides(s: seq<Token>, t: seq<Token>, size: nat)
    requires size > 0
  {
    s != t && Whole(|s|, size) && Whole(|t|, size) && Chain(s, size) == Chain(t, size)
  }

  /** No two of them share a chained hash; in particular none hashes to the "no predecessor" value. */
  ghost predicate CollisionFree(used: iset<seq<Token>>, size: nat)
    requires size > 0
  {
    forall s, t :: s in used && t in used ==> !Collides(s, t, size)
  }

  predicate HashesTo(t: seq<Token>, size: nat, h: Hash)
    requires size > 0
  {
    Whole(|t|, size) && Chain(t, size) == h
  }

  /** The one chain in use behind a key. */
  ghost function Owner(used: iset<seq<Token>>, size: nat, h: Hash): seq<Token>
    requires size > 0
  {
    if exists t :: t in used && HashesTo(t, size, h) then var t :| t in used && HashesTo(t, size, h); t else []
  }

  lemma OwnerOfChain(used: iset<seq<Token>>, size: nat, t: seq<Token>)
    requires size > 0 && CollisionFree(used, size) && t in used && Whole(|t|, size)
    ensures Owner(used, size, Chain(t, size)) == t
  {
    assert HashesTo(t, size, Chain(t, size));
    var s := Owner(used, size, Chain(t, size));
    assert s in used && HashesTo(s, size, Chain(t, size));
    assert !Collides(s, t, size);
  }

  // ---------- delta nodes ----------

  /** n is the delta node of the chain t: it holds the last chunk and hangs below the chain without it. */
  predicate HoldsChain<R>(n: Node<R>, t: seq<Token>, size: nat)
    requires size > 0
  {
    && size <= |t|
    && n.tokens == t[|t| - size..] && n.state.pos == |t| && n.kvStart == |t| - size && n.index == Count(|t| - size, size)
    && n.parent == (if |t| == size then None else Some(Chain(t[..|t| - size], size)))
  }

  ghost predicate DeltaKey<R>(used: iset<seq<Token>>, size: nat, chunks: map<Hash, Node<R>>, h: Hash)
    requires size > 0 && h in chunks
  {
    var t := Owner(used, size, h);
    t in used && HashesTo(t, size, h) && HoldsChain(chunks[h], t, size)
  }

  /** Every node was inserted by a delta insertion of a chain in use. */
  ghost predicate DeltaOnly<R>(used: iset<seq<Token>>, size: nat, chunks: map<Hash, Node<R>>)
    requires size > 0
  {
    forall h :: h in chunks ==> DeltaKey(used, size, chunks, h)
  }

  lemma CachedChain<R>(used: iset<seq<Token>>, size: nat, chunks: map<Hash, Node<R>>, t: seq<Token>)
    requires size > 0 && CollisionFree(used, size) && DeltaOnly(used, size, chunks)
    requires t in used && Whole(|t|, size) && Chain(t, size) in chunks
    ensures HoldsChain(chunks[Chain(t, size)], t, size)
  {
    OwnerOfChain(used, size, t);
    assert DeltaKey(used, size, chunks, Chain(t, size));
  }

  // ---------- the scan finds the maximum ----------

  lemma ParentCached<R>(used: iset<seq<Token>>, size: nat, chunks: map<Hash, Node<R>>, t: seq<Token>)
    requires size > 0 && CollisionFree(used, size) && DeltaOnly(used, size, chunks) && Forest(chunks)
    requires t in used && Whole(|t|, size) && size < |t| && Chain(t, size) in chunks
    ensures Chain(t[..|t| - size], size) in chunks
  {
    var h := Chain(t, size);
    CachedChain(used, size, chunks, t);
    assert Linked(chunks, h, chunks[h]);
  }

  /** The beginning of length p is cached. */
  predicate CachedAt<R>(chunks: map<Hash, Node<R>>, tokens: seq<Token>, size: nat, p: nat)
    requires size > 0 && p <= |tokens|
  {
    Whole(p, size) && Chain(tokens[..p], size) in chunks
  }

  /** Every cached beginning but the shortest has its predecessor cached. */
  ghost predicate StepsBack<R>(chunks: map<Hash, Node<R>>, tokens: seq<Token>, size: nat)
    requires size > 0
  {
    forall p :: size < p <= |tokens| && CachedAt(chunks, tokens, size, p) ==> CachedAt(chunks, tokens, size, p - size)
  }

  lemma OneStepBack<R>(used: iset<seq<Token>>, size: nat, chunks: map<Hash, Node<R>>, tokens: seq<Token>, p: nat)
    requires size > 0 && CollisionFree(used, size) && DeltaOnly(used, size, chunks) && Forest(chunks)
    requires size < p <= |tokens| && tokens[..p] in used && CachedAt(chunks, tokens, size, p)
    ensures CachedAt(chunks, tokens, size, p - size)
  {
    var t, q := tokens[..p], p - size;
    Beginning(tokens, t, p, q);
    ParentCached(used, size, chunks, t);
    assert CachedAt(chunks, tokens, size, q);
  }

  lemma Beginning(tokens: seq<Token>, t: seq<Token>, p: nat, q: nat)
    requires q <= p <= |tokens| && t == tokens[..p]
    ensures t[..q] == tokens[..q]
  {
  }

  lemma AllStepBack<R>(used: iset<seq<Token>>, size: nat, chunks: map<Hash, Node<R>>, tokens: seq<Token>)
    requires size > 0 && CollisionFree(used, size) && DeltaOnly(used, size, chunks) && Forest(chunks) && Covers(used, tokens)
    ensures StepsBack(chunks, tokens, size)
  {
    forall p | size < p <= |tokens| && CachedAt(chunks, tokens, size, p) ensures CachedAt(chunks, tokens, size, p - size) {
      assert tokens[..p] in used;
      OneStepBack(used, size, chunks, tokens, p);
    }
  }

  /** A cached chain's beginnings are cached. */
  lemma {:induction false} BeginningsCached<R>(size: nat, chunks: map<Hash, Node<R>>, tokens: seq<Token>, p: nat, q: nat)
    requires size > 0 && StepsBack(chunks, tokens, size)
    requires 0 < q <= p <= |tokens| && CachedAt(chunks, tokens, size, p) && Whole(q, size)
    ensures CachedAt(chunks, tokens, size, q)
    decreases p
  {
    if q < p {
      WholeGap(q, p, size);
      BeginningsCached(size, chunks, tokens, p - size, q);
    }
  }

  lemma {:induction false} WholeGap(q: nat, p: nat, size: nat)
    requires size > 0 && Whole(q, size) && Whole(p, size) && q < p
    ensures q + size <= p && Whole(p - size, size)
  {
    if q > 0 { WholeGap(q - size, p - size, size); }
  }

  /** The scan passes every cached chain. */
  lemma {:induction false} ScanReaches<R>(size: nat, chunks: map<Hash, Node<R>>, tokens: seq<Token>, p: nat, q: nat)
    requires size > 0 && StepsBack(chunks, tokens, size)
    requires q <= p <= |tokens| && Whole(q, size) && p > 0 && CachedAt(chunks, tokens, size, p)
    ensures Scan(chunks, tokens, size, q) >= p
    decreases p - q
  {
    if q < p {
      WholeGap(q, p, size);
      BeginningsCached(size, chunks, tokens, p, q + size);
      assert CachedAt(chunks, tokens, size, q + size);
      ScanReaches(size, chunks, tokens, p, q + size);
    }
  }

  lemma {:induction false} ScanStopsAtCached<R>(size: nat, chunks: map<Hash, Node<R>>, tokens: seq<Token>, q: nat)
    requires size > 0 && q <= |tokens| && Whole(q, size) && (q == 0 || Chain(tokens[..q], size) in chunks)
    ensures var m := Scan(chunks, tokens, size, q); Whole(m, size) && (m == 0 || Chain(tokens[..m], size) in chunks)
    decreases |tokens| - q
  {
    if q + size <= |tokens| && Chain(tokens[..q + size], size) in chunks {
      ScanStopsAtCached(size, chunks, tokens, q + size);
    }
  }

  /** Stopping at the first miss loses nothing: the matched length is the greatest cached one,
      and the matched node ends exactly there. */
  lemma LongestIsMaximum<R>(used: iset<seq<Token>>, c: Cache<R>, tokens: seq<Token>)
    requires c.chunkSize > 0 && CollisionFree(used, c.chunkSize) && DeltaOnly(used, c.chunkSize, c.chunks)
    requires Forest(c.chunks) && Covers(used, tokens)
    ensures var m := Longest(c, tokens);
      && Whole(m, c.chunkSize) && (m > 0 ==> Chain(tokens[..m], c.chunkSize) in c.chunks)
      && (m > 0 ==> HoldsChain(c.chunks[Chain(tokens[..m], c.chunkSize)], tokens[..m], c.chunkSize))
    ensures forall p :: 0 < p <= |tokens| && CachedAt(c.chunks, tokens, c.chunkSize, p) ==> p <= Longest(c, tokens)
  {
    var size, m := c.chunkSize, Longest(c, tokens);
    ScanStopsAtCached(size, c.chunks, tokens, 0);
    if m > 0 {
      assert tokens[..m] in used;
      CachedChain(used, size, c.chunks, tokens[..m]);
    }
    AllStepBack(used, size, c.chunks, tokens);
    forall p | 0 < p <= |tokens| && CachedAt(c.chunks, tokens, c.chunkSize, p)
      ensures p <= m
    {
      ScanReaches(size, c.chunks, tokens, p, 0);
    }
  }
}
