/** A prefix cache whose nodes hold what cold runs leave, and how prefill keeps it that way. */
module WarmCache {
  import opened Common
  import opened ChunkHash
  import opened PrefixCache
  import opened PrefixInvariant
  import opened PrefixLookup
  import opened HybridMemory
  import opened ColdRun

  // ---------- the invariant ----------

  /** The node under h holds the snapshot a cold run leaves at the end of its chain. */
  ghost predicate FaithfulKey(s: Setup, used: iset<seq<Token>>, chunks: map<Hash, Node<int>>, h: Hash)
    requires s.size > 0 && h in chunks
  {
    var t := Owner(used, s.size, h);
    DeltaKey(used, s.size, chunks, h) && Known(s, t) && chunks[h].state == Snap(s, t)
  }

  ghost predicate FaithfulChunks(s: Setup, used: iset<seq<Token>>, chunks: map<Hash, Node<int>>)
    requires s.size > 0
  {
    forall h :: h in chunks ==> FaithfulKey(s, used, chunks, h)
  }

  /** The chains in use do not collide, and every node is a faithful delta node. */
  ghost predicate Faithful(s: Setup, used: iset<seq<Token>>, c: Cache<int>) {
    s.size > 0 && c.chunkSize == s.size && CollisionFree(used, s.size) && FaithfulChunks(s, used, c.chunks)
  }

  lemma FaithfulIsDelta(s: Setup, used: iset<seq<Token>>, chunks: map<Hash, Node<int>>)
    requires s.size > 0 && FaithfulChunks(s, used, chunks)
    ensures DeltaOnly(used, s.size, chunks)
  {
    forall h | h in chunks ensures DeltaKey(used, s.size, chunks, h) {
      assert FaithfulKey(s, used, chunks, h);
    }
  }

  // ---------- eviction only removes ----------

  predicate PartOf<R(==)>(a: map<Hash, Node<R>>, b: map<Hash, Node<R>>) {
    forall h :: h in a ==> h in b && a[h] == b[h]
  }

  lemma EvictOneRemoves(c: Cache<int>)
    requires |c.lru| > 0
    ensures PartOf(EvictOne(c).chunks, c.chunks)
  {
  }

  lemma {:induction false} EvictToCountRemoves(c: Cache<int>)
    ensures PartOf(EvictToCount(c).chunks, c.chunks)
    decreases |c.lru|
  {
    if |c.chunks| > c.maxChunks && |c.lru| > 0 {
      EvictOneRemoves(c);
      EvictToCountRemoves(EvictOne(c));
    }
  }

  lemma {:induction false} PruneToRemoves(c: Cache<int>, target: nat)
    ensures PartOf(PruneTo(c, target).chunks, c.chunks)
    decreases |c.lru|
  {
    if c.total > target && |c.lru| > 0 {
      EvictOneRemoves(c);
      PruneToRemoves(EvictOne(c), target);
    }
  }

  lemma FaithfulFewer(s: Setup, used: iset<seq<Token>>, a: map<Hash, Node<int>>, b: map<Hash, Node<int>>)
    requires s.size > 0 && FaithfulChunks(s, used, b) && PartOf(a, b)
    ensures FaithfulChunks(s, used, a)
  {
    forall h | h in a ensures FaithfulKey(s, used, a, h) {
      assert FaithfulKey(s, used, b, h);
    }
  }

  lemma PruneKeepsFaithful(s: Setup, used: iset<seq<Token>>, c: Cache<int>, target: nat)
    requires Faithful(s, used, c)
    ensures Faithful(s, used, PruneTo(c, target))
  {
    PruneToRemoves(c, target);
    FaithfulFewer(s, used, PruneTo(c, target).chunks, c.chunks);
    PruneToFrame(c, target);
  }

  lemma FindKeepsFaithful(s: Setup, used: iset<seq<Token>>, c: Cache<int>, tokens: seq<Token>)
    requires Faithful(s, used, c)
    ensures Faithful(s, used, AfterFind(c, tokens)) && AfterFind(c, tokens).chunks == c.chunks
  {
  }

  // ---------- insertion at a chunk boundary ----------

  /** `cache_prefill_boundary` at the end of t, with the snapshot a cold run leaves there. */
  ghost function Boundary(s: Setup, c: Cache<int>, t: seq<Token>): Cache<int>
    requires s.size > 0 && Known(s, t)
  {
    var last := LastChunk(t, s.size);
    InsertDelta(c, last.prev, last.tokens, last.index, Snap(s, t))
  }

  /** The chunk that ends t, its place, and the hash of what comes before it. */
  datatype Chunk = Chunk(prev: Hash, tokens: seq<Token>, index: nat)

  function LastChunk(t: seq<Token>, size: nat): Chunk
    requires 0 < size <= |t|
  {
    Chunk(Chain(t[..|t| - size], size), t[|t| - size..], Count(|t| - size, size))
  }

  /** The node a boundary insertion makes is the delta node of the chain so far. */
  lemma BoundaryNode(c: Cache<int>, t: seq<Token>, last: Chunk, state: Snapshot<int>, parent: Option<Hash>)
    requires 0 < c.chunkSize <= |t| && Whole(|t|, c.chunkSize) && state.pos == |t| && last == LastChunk(t, c.chunkSize)
    requires DeltaParent(c, last.prev, last.tokens, last.index, state) == Ok(parent)
    ensures var n := DeltaNode(c, last.prev, last.tokens, last.index, state, parent);
      n.hash == Chain(t, c.chunkSize) && HoldsChain(n, t, c.chunkSize) && n.state == state
  {
    CountTimes(|t| - c.chunkSize, c.chunkSize);
  }

  lemma InsertNodeRemoves(c: Cache<int>, n: Node<int>)
    ensures PartOf(InsertNode(c, n).chunks, c.chunks[n.hash := n]) || InsertNode(c, n).chunks == c.chunks
  {
    EvictToCountRemoves(Stored(c, n));
    PruneToRemoves(EvictToCount(Stored(c, n)), c.budget);
  }

  lemma FaithfulMore(s: Setup, used: iset<seq<Token>>, chunks: map<Hash, Node<int>>, n: Node<int>, t: seq<Token>)
    requires s.size > 0 && FaithfulChunks(s, used, chunks) && CollisionFree(used, s.size)
    requires t in used && Whole(|t|, s.size) && n.hash == Chain(t, s.size) && HoldsChain(n, t, s.size)
    requires Known(s, t) && n.state == Snap(s, t)
    ensures FaithfulChunks(s, used, chunks[n.hash := n])
  {
    var more := chunks[n.hash := n];
    OwnerOfChain(used, s.size, t);
    forall h | h in more ensures FaithfulKey(s, used, more, h) {
      if h != n.hash { assert FaithfulKey(s, used, chunks, h); }
    }
  }

  lemma InsertKeepsFaithful(s: Setup, used: iset<seq<Token>>, c: Cache<int>, n: Node<int>, t: seq<Token>)
    requires Faithful(s, used, c)
    requires t in used && Whole(|t|, s.size) && n.hash == Chain(t, s.size) && HoldsChain(n, t, s.size)
    requires Known(s, t) && n.state == Snap(s, t)
    ensures Faithful(s, used, InsertNode(c, n))
  {
    var after := InsertNode(c, n);
    FaithfulMore(s, used, c.chunks, n, t);
    InsertNodeRemoves(c, n);
    InsertNodeFrame(c, n);
    if after.chunks != c.chunks {
      FaithfulFewer(s, used, after.chunks, c.chunks[n.hash := n]);
    }
  }

  lemma BoundaryKeepsFaithful(s: Setup, used: iset<seq<Token>>, c: Cache<int>, t: seq<Token>)
    requires Faithful(s, used, c) && Whole(|t|, s.size) && Known(s, t) && t in used
    ensures Faithful(s, used, Boundary(s, c, t))
  {
    var last, state := LastChunk(t, s.size), Snap(s, t);
    SnapLength(s, t);
    match DeltaParent(c, last.prev, last.tokens, last.index, state)
    case Err(_) =>
    case Ok(parent) =>
      BoundaryNode(c, t, last, state, parent);
      InsertKeepsFaithful(s, used, c, DeltaNode(c, last.prev, last.tokens, last.index, state, parent), t);
  }

  lemma SnapLength(s: Setup, t: seq<Token>)
    requires Known(s, t)
    ensures Snap(s, t).pos == |t|
  {
  }

  // ---------- all the boundaries of a stretch of prefill ----------

  ghost predicate KnownAll(s: Setup, tokens: seq<Token>, from: nat, to: nat)
    requires s.size > 0 && to <= |tokens|
  {
    forall e :: from < e <= to && Whole(e, s.size) ==> Known(s, tokens[..e])
  }

  /** The insertions of prefilling the tokens (from, to]: one at every chunk boundary, in order. */
  ghost function Boundaries(s: Setup, c: Cache<int>, tokens: seq<Token>, from: nat, to: nat): Cache<int>
    requires s.size > 0 && to <= |tokens| && KnownAll(s, tokens, from, to)
  {
    if to <= from then c
    else
      var before := Boundaries(s, c, tokens, from, to - 1);
      if Whole(to, s.size) then Boundary(s, before, tokens[..to]) else before
  }

  lemma {:induction false} BoundariesKeepFaithful(s: Setup, used: iset<seq<Token>>, c: Cache<int>, tokens: seq<Token>, from: nat, to: nat)
    requires Faithful(s, used, c) && to <= |tokens| && KnownAll(s, tokens, from, to) && Covers(used, tokens)
    ensures Faithful(s, used, Boundaries(s, c, tokens, from, to))
  {
    if to > from {
      BoundariesKeepFaithful(s, used, c, tokens, from, to - 1);
      if Whole(to, s.size) {
        assert tokens[..to] in used;
        BoundaryKeepsFaithful(s, used, Boundaries(s, c, tokens, from, to - 1), tokens[..to]);
      }
    }
  }

  /** No boundary, no insertion. */
  lemma {:induction false} NoBoundary(s: Setup, c: Cache<int>, tokens: seq<Token>, from: nat, mid: nat, to: nat)
    requires s.size > 0 && from <= mid <= to <= |tokens| && KnownAll(s, tokens, from, to)
    requires forall e :: mid < e <= to ==> !Whole(e, s.size)
    ensures Boundaries(s, c, tokens, from, to) == Boundaries(s, c, tokens, from, mid)
  {
    if to > mid { NoBoundary(s, c, tokens, from, mid, to - 1); }
  }

  // ---------- the next boundary ----------

  /** The least whole number of chunks beyond n. */
  function NextBoundary(n: nat, size: nat): (b: nat)
    requires size > 0
    ensures n < b <= n + size && Whole(b, size)
    ensures forall e :: n < e < b ==> !Whole(e, size)
  {
    if n < size then
      NotWholeBelow(size);
      size
    else
      var b := NextBoundary(n - size, size);
      NotWholeShift(n - size, b, size);
      b + size
  }

  lemma NotWholeBelow(size: nat)
    requires size > 0
    ensures forall e :: 0 < e < size ==> !Whole(e, size)
  {
  }

  lemma NotWholeShift(n: nat, b: nat, size: nat)
    requires size > 0 && n < b && forall e :: n < e < b ==> !Whole(e, size)
    ensures forall e :: n + size < e < b + size ==> !Whole(e, size)
  {
    forall e | n + size < e < b + size ensures !Whole(e, size) {
      assert !Whole(e - size, size);
    }
  }

  lemma {:induction false} NextBoundaryIs(n: nat, size: nat)
    requires size > 0
    ensures (n / size + 1) * size == NextBoundary(n, size)
  {
    if n < size {
      DivSmall(n, size);
    } else {
      NextBoundaryIs(n - size, size);
      DivStep(n - size, size);
      var q := (n - size) / size + 1;
      assert (q + 1) * size == q * size + size;
    }
  }
}
