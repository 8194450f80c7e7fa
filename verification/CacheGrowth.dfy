/** What an insertion adds: with room for it, the cache holds the node afterwards and has lost nothing. */
module CacheGrowth {
  import opened Common
  import opened Layout
  import opened KvCache
  import opened ChunkHash
  import opened PrefixCache
  import opened PrefixInvariant
  import opened PrefixLookup
  import opened HybridMemory
  import opened Forward
  import opened ColdRun
  import opened WarmCache

  // ---------- use and eviction ----------

  /** A touched key moves to the end of the queue; the others keep their order. */
  lemma TouchMoves(before: seq<Hash>, h: Hash, after: seq<Hash>)
    requires h !in before
    ensures Touched(before + [h] + after, h) == before + after + [h]
  {
    WithoutAt(before, h, after);
  }

  /** Pruning stops as soon as the target is met: before its last eviction the bytes were above it. */
  lemma {:induction false} PruneNeeded<R>(c: Cache<R>, target: nat) returns (before: Cache<R>)
    requires PruneTo(c, target) != c
    ensures before.total > target && |before.lru| > 0 && PruneTo(c, target) == EvictOne(before)
    decreases |c.lru|
  {
    var next := EvictOne(c);
    if PruneTo(next, target) == next { before := c; } else { before := PruneNeeded(next, target); }
  }

  /** So does the eviction to the number of nodes. */
  lemma {:induction false} EvictionNeeded<R>(c: Cache<R>) returns (before: Cache<R>)
    requires EvictToCount(c) != c
    ensures |before.chunks| > before.maxChunks && |before.lru| > 0 && EvictToCount(c) == EvictOne(before)
    decreases |c.lru|
  {
    var next := EvictOne(c);
    if EvictToCount(next) == next { before := c; } else { before := EvictionNeeded(next); }
  }

  // ---------- one node ----------

  /** What a node is charged: 288 bytes for its two records and four for each token and each cell it holds. */
  lemma NodeCharge<R>(n: Node<R>)
    ensures NodeBytes(n) == 288 + 4 * (|n.tokens| + |n.state.k| + |n.state.v| + |n.state.conv| + |n.state.hidden|)
  {
  }

  /** There is room for one more node of that many bytes. */
  predicate RoomFor<R>(c: Cache<R>, nodes: nat, bytes: nat) {
    |c.chunks| + nodes <= c.maxChunks && c.total + bytes <= c.budget
  }

  lemma NothingEvicted<R>(c: Cache<R>)
    requires |c.chunks| <= c.maxChunks && c.total <= c.budget
    ensures PruneTo(EvictToCount(c), c.budget) == c
  {
  }

  /** A new node for which there is room is stored, and nothing is evicted. */
  lemma NodeStored<R>(c: Cache<R>, n: Node<R>)
    requires n.hash !in c.chunks && RoomFor(c, 1, 288 + 4 * (|n.tokens| + |n.state.k| + |n.state.v| + |n.state.conv| + |n.state.hidden|))
    ensures InsertNode(c, n).chunks == c.chunks[n.hash := n]
    ensures InsertNode(c, n).total <= c.total + (288 + 4 * (|n.tokens| + |n.state.k| + |n.state.v| + |n.state.conv| + |n.state.hidden|))
  {
    NodeCharge(n);
    assert c.chunks[n.hash := n].Keys == c.chunks.Keys + {n.hash};
    NothingEvicted(Stored(c, n));
  }

  // ---------- one delta insertion ----------

  /** The chunk is whole, its snapshot ends where it ends, and it stands at the start or directly behind the cached node `prev`. */
  predicate Continues<R>(c: Cache<R>, prev: Hash, tokens: seq<Token>, index: nat, state: Snapshot<R>) {
    && |tokens| == c.chunkSize && state.pos == (index + 1) * c.chunkSize <= MAX_USIZE
    && if index == 0 then prev == NO_HASH
       else prev in c.chunks && c.chunks[prev].state.pos == index * c.chunkSize && c.chunks[prev].index == index - 1
  }

  /** Exactly such chunks are inserted; the others leave the cache as it was. */
  lemma DeltaInserts<R>(c: Cache<R>, prev: Hash, tokens: seq<Token>, index: nat, state: Snapshot<R>)
    requires c.chunkSize > 0
    ensures InsertDelta(c, prev, tokens, index, state) ==
      if Continues(c, prev, tokens, index, state)
      then InsertNode(c, Node(index, ChunkKey(prev, tokens), tokens, state, index * c.chunkSize, if index == 0 then None else Some(prev)))
      else c
  {
    var start := index * c.chunkSize;
    assert (index + 1) * c.chunkSize == start + c.chunkSize;
    assert start == 0 <==> index == 0 by { if index > 0 { TimesAtLeast(index, c.chunkSize); } }
  }

  // ---------- one boundary ----------

  /** Bytes of one boundary's node. */
  function BoundaryBytes(s: Setup): nat {
    288 + 4 * (s.size + 2 * Span(Span(s.m.g.layers, s.size), s.m.g.carrierCells) + Span(|s.m.layers|, s.m.cells) + s.hidden)
  }

  /** The cache holds the node of the chain t: its last chunk, in its place, below the chain without that chunk, with the snapshot
      a cold run leaves there. */
  ghost predicate HoldsNode(s: Setup, chunks: map<Hash, Node<int>>, t: seq<Token>) {
    && s.size > 0 && Known(s, t) && Chain(t, s.size) in chunks
    && HoldsChain(chunks[Chain(t, s.size)], t, s.size) && chunks[Chain(t, s.size)].state == Snap(s, t)
  }

  /** A faithful cache holds the node of every chain whose key it has. */
  lemma CachedHolds(s: Setup, used: iset<seq<Token>>, c: Cache<int>, t: seq<Token>)
    requires Faithful(s, used, c) && t in used && Known(s, t) && Whole(|t|, s.size) && Chain(t, s.size) in c.chunks
    ensures HoldsNode(s, c.chunks, t)
  {
    OwnerOfChain(used, s.size, t);
    assert FaithfulKey(s, used, c.chunks, Chain(t, s.size));
  }

  lemma KnownLength(s: Setup, t: seq<Token>)
    requires Known(s, t)
    ensures s.size <= |t| <= MAX_USIZE && Snap(s, t).pos == |t|
  {
  }

  /** The parent of the chunk at `start`: none at the start, else the node of the chain before it. */
  function ParentAt(t: seq<Token>, start: nat, size: nat): Option<Hash>
    requires size > 0 && start <= |t|
  {
    if start == 0 then None else Some(Chain(t[..start], size))
  }

  /** The node that belongs at the end of t. */
  ghost function NodeAt(s: Setup, t: seq<Token>): Node<int>
    requires s.size > 0 && Known(s, t)
  {
    var start := |t| - s.size;
    Node(Count(start, s.size), Chain(t, s.size), t[start..], Snap(s, t), start, ParentAt(t, start, s.size))
  }

  lemma ParentFound(c: Cache<int>, t: seq<Token>, start: nat, last: Chunk, state: Snapshot<int>)
    requires c.chunkSize > 0 && |t| == start + c.chunkSize <= MAX_USIZE && Whole(start, c.chunkSize) && state.pos == |t|
    requires last == LastChunk(t, c.chunkSize)
    requires start > 0 ==>
      Chain(t[..start], c.chunkSize) in c.chunks && HoldsChain(c.chunks[Chain(t[..start], c.chunkSize)], t[..start], c.chunkSize)
    ensures DeltaParent(c, last.prev, last.tokens, last.index, state) == Ok(ParentAt(t, start, c.chunkSize))
  {
    CountTimes(start, c.chunkSize);
  }

  /** A boundary whose earlier beginning is cached is always inserted. */
  lemma BoundaryParent(s: Setup, used: iset<seq<Token>>, c: Cache<int>, t: seq<Token>, start: nat, last: Chunk)
    requires Faithful(s, used, c) && Known(s, t) && |t| == start + s.size && Whole(start, s.size) && last == LastChunk(t, s.size)
    requires start > 0 ==> t[..start] in used && Chain(t[..start], s.size) in c.chunks
    ensures DeltaParent(c, last.prev, last.tokens, last.index, Snap(s, t)) == Ok(ParentAt(t, start, s.size))
  {
    KnownLength(s, t);
    if start > 0 {
      FaithfulIsDelta(s, used, c.chunks);
      CachedChain(used, s.size, c.chunks, t[..start]);
    }
    ParentFound(c, t, start, last, Snap(s, t));
  }

  lemma SnapSizes(s: Setup, t: seq<Token>)
    requires Known(s, t)
    ensures |Snap(s, t).k| == |Snap(s, t).v| == Span(Span(s.m.g.layers, s.size), s.m.g.carrierCells)
    ensures |Snap(s, t).conv| == Span(|s.m.layers|, s.m.cells) && |Snap(s, t).hidden| == s.hidden
  {
  }

  /** after holds the node of t, all that before held, and at most one node more. */
  ghost predicate Grown(s: Setup, before: Cache<int>, after: Cache<int>, t: seq<Token>) {
    && HoldsNode(s, after.chunks, t) && PartOf(before.chunks, after.chunks)
    && |after.chunks| <= |before.chunks| + 1 && after.total <= before.total + BoundaryBytes(s)
    && after.maxChunks == before.maxChunks && after.budget == before.budget
  }

  lemma NewNodeGrows(s: Setup, c: Cache<int>, t: seq<Token>, n: Node<int>)
    requires s.size > 0 && Known(s, t) && n.hash == Chain(t, s.size) && HoldsChain(n, t, s.size) && n.state == Snap(s, t)
    requires n.hash !in c.chunks && RoomFor(c, 1, BoundaryBytes(s))
    ensures Grown(s, c, InsertNode(c, n), t)
  {
    SnapSizes(s, t);
    InsertNodeFrame(c, n);
    NodeStored(c, n);
    assert c.chunks[n.hash := n].Keys == c.chunks.Keys + {n.hash};
  }

  lemma OldNodeGrows(s: Setup, used: iset<seq<Token>>, c: Cache<int>, t: seq<Token>, n: Node<int>)
    requires Faithful(s, used, c) && t in used && Known(s, t) && Whole(|t|, s.size)
    requires n.hash == Chain(t, s.size) && n.hash in c.chunks
    ensures Grown(s, c, InsertNode(c, n), t)
  {
    InsertNodeFrame(c, n);
    CachedHolds(s, used, c, t);
  }

  lemma DeltaIsNode(s: Setup, c: Cache<int>, t: seq<Token>, start: nat, last: Chunk, parent: Option<Hash>)
    requires s.size > 0 && c.chunkSize == s.size && Known(s, t) && |t| == start + s.size && Whole(start, s.size)
    requires last == LastChunk(t, s.size) && parent == ParentAt(t, start, s.size)
    ensures DeltaNode(c, last.prev, last.tokens, last.index, Snap(s, t), parent) == NodeAt(s, t)
  {
    CountTimes(start, s.size);
  }

  lemma AcceptedDelta(c: Cache<int>, last: Chunk, state: Snapshot<int>, parent: Option<Hash>, n: Node<int>)
    requires DeltaParent(c, last.prev, last.tokens, last.index, state) == Ok(parent)
    requires DeltaNode(c, last.prev, last.tokens, last.index, state, parent) == n
    ensures InsertDelta(c, last.prev, last.tokens, last.index, state) == InsertNode(c, n)
  {
  }

  /** The insertion of a boundary behind a cached beginning is the insertion of that node. */
  lemma BoundaryInserts(s: Setup, used: iset<seq<Token>>, c: Cache<int>, t: seq<Token>, start: nat)
    requires Faithful(s, used, c) && Known(s, t) && |t| == start + s.size && Whole(start, s.size)
    requires start > 0 ==> t[..start] in used && Chain(t[..start], s.size) in c.chunks
    ensures Boundary(s, c, t) == InsertNode(c, NodeAt(s, t))
  {
    var last, parent := LastChunk(t, s.size), ParentAt(t, start, s.size);
    BoundaryParent(s, used, c, t, start, last);
    DeltaIsNode(s, c, t, start, last, parent);
    AcceptedDelta(c, last, Snap(s, t), parent, NodeAt(s, t));
  }

  /** A boundary for which there is room is in the cache afterwards, and nothing has left it. */
  lemma BoundaryStored(s: Setup, used: iset<seq<Token>>, c: Cache<int>, t: seq<Token>, start: nat)
    requires Faithful(s, used, c) && t in used && Known(s, t) && |t| == start + s.size && Whole(start, s.size)
    requires start > 0 ==> t[..start] in used && Chain(t[..start], s.size) in c.chunks
    requires RoomFor(c, 1, BoundaryBytes(s))
    ensures Grown(s, c, Boundary(s, c, t), t)
  {
    var after, n := Boundary(s, c, t), NodeAt(s, t);
    BoundaryInserts(s, used, c, t, start);
    NodeGrows(s, used, c, t, n, after);
  }

  lemma NodeAtHolds(s: Setup, t: seq<Token>, n: Node<int>)
    requires s.size > 0 && Known(s, t) && n == NodeAt(s, t)
    ensures n.hash == Chain(t, s.size) && HoldsChain(n, t, s.size) && n.state == Snap(s, t)
  {
    KnownLength(s, t);
  }

  lemma NodeGrows(s: Setup, used: iset<seq<Token>>, c: Cache<int>, t: seq<Token>, n: Node<int>, after: Cache<int>)
    requires Faithful(s, used, c) && t in used && Known(s, t) && Whole(|t|, s.size) && n == NodeAt(s, t) && after == InsertNode(c, n)
    requires RoomFor(c, 1, BoundaryBytes(s))
    ensures Grown(s, c, after, t)
  {
    NodeAtHolds(s, t, n);
    if n.hash in c.chunks { OldNodeGrows(s, used, c, t, n); } else { NewNodeGrows(s, c, t, n); }
  }

  // ---------- all the boundaries of a prompt ----------

  /** Every whole beginning of the tokens, up to length n, is cached. */
  predicate AllCached(chunks: map<Hash, Node<int>>, tokens: seq<Token>, size: nat, n: nat)
    requires size > 0 && n <= |tokens|
  {
    forall e :: 0 < e <= n && Whole(e, size) ==> CachedAt(chunks, tokens, size, e)
  }

  lemma CachedStay(a: map<Hash, Node<int>>, b: map<Hash, Node<int>>, tokens: seq<Token>, size: nat, n: nat)
    requires size > 0 && n <= |tokens| && AllCached(a, tokens, size, n) && PartOf(a, b)
    ensures AllCached(b, tokens, size, n)
  {
    forall e | 0 < e <= n && Whole(e, size) ensures CachedAt(b, tokens, size, e) {
      assert CachedAt(a, tokens, size, e);
    }
  }

  /** after has all that before had, the boundaries up to n, and at most k nodes more; its limits are the same. */
  ghost predicate Filling(s: Setup, before: Cache<int>, after: Cache<int>, tokens: seq<Token>, n: nat, k: nat)
    requires s.size > 0 && n <= |tokens|
  {
    && AllCached(after.chunks, tokens, s.size, n) && PartOf(before.chunks, after.chunks)
    && |after.chunks| <= |before.chunks| + k && after.total <= before.total + Span(k, BoundaryBytes(s))
    && after.maxChunks == before.maxChunks && after.budget == before.budget
  }

  lemma {:induction false} CountSteps(n: nat, size: nat)
    requires size > 0 && n > 0
    ensures Count(n, size) == Count(n - 1, size) + if Whole(n, size) then 1 else 0
  {
    if n > size { CountSteps(n - size, size); }
  }

  lemma {:induction false} CountMono(m: nat, n: nat, size: nat)
    requires size > 0 && m <= n
    ensures Count(m, size) <= Count(n, size)
  {
    if m < n {
      CountMono(m, n - 1, size);
      CountSteps(n, size);
    }
  }

  lemma CachedMore(s: Setup, before: Cache<int>, after: Cache<int>, tokens: seq<Token>, last: nat, to: nat)
    requires s.size > 0 && to == last + 1 <= |tokens| && Whole(to, s.size)
    requires AllCached(before.chunks, tokens, s.size, last) && Grown(s, before, after, tokens[..to])
    ensures AllCached(after.chunks, tokens, s.size, to)
  {
    CachedStay(before.chunks, after.chunks, tokens, s.size, last);
    assert CachedAt(after.chunks, tokens, s.size, to);
  }

  lemma FillingOn(s: Setup, c: Cache<int>, before: Cache<int>, after: Cache<int>, tokens: seq<Token>, last: nat, to: nat, k: nat, more: nat)
    requires s.size > 0 && to == last + 1 <= |tokens| && Whole(to, s.size) && more == k + 1
    requires Filling(s, c, before, tokens, last, k) && Grown(s, before, after, tokens[..to])
    ensures Filling(s, c, after, tokens, to, more)
  {
    CachedMore(s, before, after, tokens, last, to);
    assert Span(more, BoundaryBytes(s)) == Span(k, BoundaryBytes(s)) + BoundaryBytes(s);
  }

  lemma RoomLeft(s: Setup, c: Cache<int>, before: Cache<int>, tokens: seq<Token>, last: nat, k: nat, more: nat)
    requires s.size > 0 && last <= |tokens| && more == k + 1 && Filling(s, c, before, tokens, last, k)
    requires RoomFor(c, more, Span(more, BoundaryBytes(s)))
    ensures RoomFor(before, 1, BoundaryBytes(s))
  {
    assert Span(more, BoundaryBytes(s)) == Span(k, BoundaryBytes(s)) + BoundaryBytes(s);
  }

  /** The next boundary of the tokens: its earlier beginning is cached. */
  lemma NextStored(s: Setup, used: iset<seq<Token>>, c: Cache<int>, tokens: seq<Token>, last: nat, to: nat, t: seq<Token>)
    requires s.size > 0 && to == last + 1 <= |tokens| && Covers(used, tokens) && Faithful(s, used, c)
    requires AllCached(c.chunks, tokens, s.size, last) && Whole(to, s.size) && t == tokens[..to] && Known(s, t)
    requires RoomFor(c, 1, BoundaryBytes(s))
    ensures Grown(s, c, Boundary(s, c, t), t)
  {
    var start := to - s.size;
    EarlierCached(s, used, c.chunks, tokens, last, to, start, t);
    BoundaryStored(s, used, c, t, start);
  }

  lemma EarlierCached(s: Setup, used: iset<seq<Token>>, chunks: map<Hash, Node<int>>, tokens: seq<Token>, last: nat, to: nat, start: nat,
                      t: seq<Token>)
    requires s.size > 0 && to == last + 1 <= |tokens| && Covers(used, tokens) && Whole(to, s.size) && to == start + s.size && t == tokens[..to]
    requires AllCached(chunks, tokens, s.size, last)
    ensures t in used && Whole(start, s.size)
    ensures start > 0 ==> t[..start] in used && Chain(t[..start], s.size) in chunks
  {
    if start > 0 {
      assert t[..start] == tokens[..start];
      assert CachedAt(chunks, tokens, s.size, start);
    }
  }

  lemma FillingPlain(s: Setup, c: Cache<int>, before: Cache<int>, tokens: seq<Token>, last: nat, to: nat, k: nat)
    requires s.size > 0 && to == last + 1 <= |tokens| && !Whole(to, s.size) && Filling(s, c, before, tokens, last, k)
    ensures Filling(s, c, before, tokens, to, k)
  {
  }

  lemma FillingStart(s: Setup, c: Cache<int>, tokens: seq<Token>, from: nat)
    requires s.size > 0 && from <= |tokens| && AllCached(c.chunks, tokens, s.size, from)
    ensures Filling(s, c, c, tokens, from, 0)
  {
  }

  lemma FillingNext(s: Setup, used: iset<seq<Token>>, c: Cache<int>, before: Cache<int>, after: Cache<int>, tokens: seq<Token>, last: nat, to: nat,
      k: nat, more: nat)
    requires s.size > 0 && to == last + 1 <= |tokens| && more == k + 1 && Covers(used, tokens) && Faithful(s, used, before)
    requires Filling(s, c, before, tokens, last, k) && Whole(to, s.size) && Known(s, tokens[..to]) && after == Boundary(s, before, tokens[..to])
    requires RoomFor(c, more, Span(more, BoundaryBytes(s)))
    ensures Filling(s, c, after, tokens, to, more)
  {
    RoomLeft(s, c, before, tokens, last, k, more);
    NextStored(s, used, before, tokens, last, to, tokens[..to]);
    FillingOn(s, c, before, after, tokens, last, to, k, more);
  }

  lemma BoundaryLast(s: Setup, c: Cache<int>, tokens: seq<Token>, from: nat, last: nat, to: nat, before: Cache<int>)
    requires s.size > 0 && from <= last && to == last + 1 <= |tokens| && KnownAll(s, tokens, from, to)
    requires Whole(to, s.size) && before == Boundaries(s, c, tokens, from, last)
    ensures Known(s, tokens[..to]) && Boundaries(s, c, tokens, from, to) == Boundary(s, before, tokens[..to])
  {
  }

  lemma NoBoundaryLast(s: Setup, c: Cache<int>, tokens: seq<Token>, from: nat, last: nat, to: nat)
    requires s.size > 0 && from <= last && to == last + 1 <= |tokens| && KnownAll(s, tokens, from, to) && !Whole(to, s.size)
    ensures Boundaries(s, c, tokens, from, to) == Boundaries(s, c, tokens, from, last)
  {
  }

  lemma RoomForFewer(s: Setup, c: Cache<int>, k: nat, more: nat)
    requires more == k + 1 && RoomFor(c, more, Span(more, BoundaryBytes(s)))
    ensures RoomFor(c, k, Span(k, BoundaryBytes(s)))
  {
  }

  /** With room for the boundaries of a stretch, all of them are cached after it. */
  lemma {:induction false} BoundariesStored(s: Setup, used: iset<seq<Token>>, c: Cache<int>, tokens: seq<Token>, from: nat, to: nat, k: nat)
    requires s.size > 0 && Faithful(s, used, c) && Covers(used, tokens) && from <= to <= |tokens| && KnownAll(s, tokens, from, to)
    requires AllCached(c.chunks, tokens, s.size, from) && Count(to, s.size) == Count(from, s.size) + k
    requires RoomFor(c, k, Span(k, BoundaryBytes(s)))
    ensures Filling(s, c, Boundaries(s, c, tokens, from, to), tokens, to, k)
  {
    if from == to {
      FillingStart(s, c, tokens, from);
    } else {
      var last := to - 1;
      CountSteps(to, s.size);
      CountMono(from, last, s.size);
      BoundariesKeepFaithful(s, used, c, tokens, from, last);
      var before, after := Boundaries(s, c, tokens, from, last), Boundaries(s, c, tokens, from, to);
      if Whole(to, s.size) {
        var fewer := k - 1;
        BoundaryLast(s, c, tokens, from, last, to, before);
        RoomForFewer(s, c, fewer, k);
        BoundariesStored(s, used, c, tokens, from, last, fewer);
        FillingNext(s, used, c, before, after, tokens, last, to, fewer, k);
      } else {
        NoBoundaryLast(s, c, tokens, from, last, to);
        BoundariesStored(s, used, c, tokens, from, last, k);
        FillingPlain(s, c, before, tokens, last, to, k);
      }
    }
  }

  // ---------- the lookup afterwards ----------

  /** n / size chunks are the most that fit into n. */
  lemma {:induction false} WholeFits(m: nat, n: nat, size: nat)
    requires size > 0
    ensures Whole(Span(Count(n, size), size), size) && Span(Count(n, size), size) <= n
    ensures Whole(m, size) && m <= n ==> m <= Span(Count(n, size), size)
    decreases n
  {
    if n >= size { WholeFits(if m >= size then m - size else 0, n - size, size); }
  }

  lemma CoversBeginning(used: iset<seq<Token>>, tokens: seq<Token>, n: nat)
    requires Covers(used, tokens) && n <= |tokens|
    ensures Covers(used, tokens[..n])
  {
    forall k | 0 <= k <= n ensures tokens[..n][..k] in used {
      assert tokens[..n][..k] == tokens[..k];
    }
  }

  lemma CachedBeginning(chunks: map<Hash, Node<int>>, tokens: seq<Token>, size: nat, n: nat, p: nat)
    requires size > 0 && 0 < p <= n <= |tokens| && Whole(p, size) && AllCached(chunks, tokens, size, |tokens|)
    ensures CachedAt(chunks, tokens[..n], size, p)
  {
    assert tokens[..n][..p] == tokens[..p];
    assert CachedAt(chunks, tokens, size, p);
  }

  /** Once all whole beginnings of the tokens are cached, the lookup matches all whole chunks of each. */
  lemma LongestOfAll(s: Setup, used: iset<seq<Token>>, c: Cache<int>, tokens: seq<Token>, n: nat)
    requires Faithful(s, used, c) && Forest(c.chunks) && Covers(used, tokens) && n <= |tokens| && AllCached(c.chunks, tokens, s.size, |tokens|)
    ensures Longest(c, tokens[..n]) == Span(n / s.size, s.size)
  {
    var t, whole := tokens[..n], Span(Count(n, s.size), s.size);
    WholeIsMod(n, s.size);
    FaithfulIsDelta(s, used, c.chunks);
    CoversBeginning(used, tokens, n);
    LongestIsMaximum(used, c, t);
    WholeFits(Longest(c, t), n, s.size);
    if whole > 0 { CachedBeginning(c.chunks, tokens, s.size, n, whole); }
  }

  // ---------- a prompt ----------

  /** There is room for all whole chunks of n tokens. */
  predicate RoomForAll(s: Setup, c: Cache<int>, n: nat)
    requires s.size > 0
  {
    RoomFor(c, n / s.size, Span(n / s.size, BoundaryBytes(s)))
  }

  /** A matched beginning is cached with all its beginnings. */
  lemma MatchedCached(s: Setup, used: iset<seq<Token>>, c: Cache<int>, tokens: seq<Token>, n: nat, reused: nat)
    requires Faithful(s, used, c) && Forest(c.chunks) && Covers(used, tokens) && n <= |tokens| && reused == Longest(c, tokens[..n])
    ensures reused <= n && Whole(reused, s.size) && AllCached(c.chunks, tokens, s.size, reused)
  {
    var t := tokens[..n];
    FaithfulIsDelta(s, used, c.chunks);
    CoversBeginning(used, tokens, n);
    LongestIsMaximum(used, c, t);
    AllStepBack(used, s.size, c.chunks, t);
    BeginningsStay(c.chunks, tokens, t, s.size, n, reused);
  }

  lemma BeginningsStay(chunks: map<Hash, Node<int>>, tokens: seq<Token>, t: seq<Token>, size: nat, n: nat, reused: nat)
    requires size > 0 && reused <= n <= |tokens| && t == tokens[..n] && StepsBack(chunks, t, size)
    requires reused > 0 ==> CachedAt(chunks, t, size, reused)
    ensures AllCached(chunks, tokens, size, reused)
  {
    forall e | 0 < e <= reused && Whole(e, size) ensures CachedAt(chunks, tokens, size, e) {
      BeginningsCached(size, chunks, t, reused, e);
      assert t[..e] == tokens[..e];
    }
  }

  lemma RoomForRest(s: Setup, c: Cache<int>, from: nat, to: nat) returns (k: nat)
    requires s.size > 0 && from <= to && RoomForAll(s, c, to)
    ensures Count(to, s.size) == Count(from, s.size) + k && RoomFor(c, k, Span(k, BoundaryBytes(s)))
  {
    CountMono(from, to, s.size);
    WholeIsMod(to, s.size);
    k := Count(to, s.size) - Count(from, s.size);
    SpanMono(k, Count(to, s.size), BoundaryBytes(s));
  }

  /** After a prompt for which there was room, all its whole beginnings are cached. */
  lemma PromptStored(s: Setup, used: iset<seq<Token>>, c: Cache<int>, tokens: seq<Token>, n: nat, reused: nat)
    requires Sound(c) && Faithful(s, used, c) && Covers(used, tokens) && n <= |tokens| && reused == Longest(c, tokens[..n])
    requires KnownAll(s, tokens, reused, |tokens|) && RoomForAll(s, c, |tokens|)
    ensures AllCached(Boundaries(s, AfterFind(c, tokens[..n]), tokens, reused, |tokens|).chunks, tokens, s.size, |tokens|)
  {
    var c1 := AfterFind(c, tokens[..n]);
    MatchedCached(s, used, c, tokens, n, reused);
    FindKeepsFaithful(s, used, c, tokens[..n]);
    var k := RoomForRest(s, c, reused, |tokens|);
    BoundariesStored(s, used, c1, tokens, reused, |tokens|, k);
  }
}
