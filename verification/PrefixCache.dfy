/** The prefix cache: a forest of chunks keyed by chained hashes, with an eviction queue and a byte count.
    R is the type of the stored state elements. */
module PrefixCache {
  import opened Common
  import opened ChunkHash
  import KvCache

  const PREFIX_CHUNK_SIZE: nat := 64
  const DEFAULT_MAX_CACHED_CHUNKS: nat := 1024
  const DEFAULT_MAX_PREFIX_CACHE_BYTES: nat := 512 * 1024 * 1024
  datatype Snapshot<R> = Snapshot(pos: nat, standalone: Hash, k: seq<R>, v: seq<R>, conv: seq<R>, hidden: seq<R>)

  /** One cached chunk: it owns the KV interval [kvStart, state.pos) and points to the owner of what precedes it. */
  datatype Node<R> = Node(index: nat, hash: Hash, tokens: seq<Token>, state: Snapshot<R>, kvStart: nat, parent: Option<Hash>)

  datatype Cache<R> = Cache(
    chunkSize: nat,
    maxChunks: nat,
    chunks: map<Hash, Node<R>>,
    lru: seq<Hash>,
    total: nat,
    budget: nat)

  // ---------- sizes ----------

  function SnapshotBytes<R>(s: Snapshot<R>): nat {
    4 * (|s.k| + |s.v| + |s.conv| + |s.hidden|) + 112
  }

  function NodeBytes<R>(n: Node<R>): nat {
    176 + 4 * |n.tokens| + SnapshotBytes(n.state)
  }

  function SaturatingAdd(a: nat, b: nat): nat {
    if a + b <= MAX_USIZE then a + b else MAX_USIZE
  }

  function SaturatingSub(a: nat, b: nat): nat {
    if b <= a then a - b else 0
  }

  // ---------- the eviction queue ----------

  function Without(q: seq<Hash>, h: Hash): seq<Hash> {
    if |q| == 0 then []
    else if q[0] == h then q[1..]
    else [q[0]] + Without(q[1..], h)
  }

  function Touched(q: seq<Hash>, h: Hash): seq<Hash> {
    if h in q then Without(q, h) + [h] else q
  }

  /** The queue's first entry of the greatest chunk index. */
  function Deepest<R>(chunks: map<Hash, Node<R>>, q: seq<Hash>): (best: Option<Hash>)
    ensures best.Some? ==> best.value in q && best.value in chunks
  {
    if |q| == 0 then None
    else
      var before, h := Deepest(chunks, q[..|q| - 1]), q[|q| - 1];
      if h in chunks && (before.None? || chunks[h].index > chunks[before.value].index) then Some(h) else before
  }

  function Victim<R>(chunks: map<Hash, Node<R>>, q: seq<Hash>): (best: Option<Hash>)
    ensures best.Some? ==> best.value in q
    ensures best.None? ==> |q| == 0
  {
    var best := Deepest(chunks, q);
    if best.Some? then best else if |q| > 0 then Some(q[0]) else None
  }

  // ---------- eviction ----------

  lemma WithoutShrinks(q: seq<Hash>, h: Hash)
    requires h in q
    ensures |Without(q, h)| == |q| - 1
  {
  }

  function Evicted<R>(c: Cache<R>, h: Hash): Cache<R> {
    var lru := Without(c.lru, h);
    if h in c.chunks
    then c.(lru := lru, chunks := c.chunks - {h}, total := SaturatingSub(c.total, NodeBytes(c.chunks[h])))
    else c.(lru := lru)
  }

  function EvictOne<R>(c: Cache<R>): (r: Cache<R>)
    requires |c.lru| > 0
    ensures |r.lru| == |c.lru| - 1
  {
    WithoutShrinks(c.lru, Victim(c.chunks, c.lru).value);
    Evicted(c, Victim(c.chunks, c.lru).value)
  }

  function EvictToCount<R>(c: Cache<R>): Cache<R>
    decreases |c.lru|
  {
    if |c.chunks| > c.maxChunks && |c.lru| > 0 then EvictToCount(EvictOne(c)) else c
  }

  function PruneTo<R>(c: Cache<R>, target: nat): Cache<R>
    decreases |c.lru|
  {
    if c.total > target && |c.lru| > 0 then PruneTo(EvictOne(c), target) else c
  }

  // ---------- insertion ----------

  function Stored<R>(c: Cache<R>, n: Node<R>): Cache<R> {
    c.(chunks := c.chunks[n.hash := n], lru := c.lru + [n.hash], total := SaturatingAdd(c.total, NodeBytes(n)))
  }

  function InsertNode<R>(c: Cache<R>, n: Node<R>): Cache<R> {
    if n.hash in c.chunks then c.(lru := Touched(c.lru, n.hash))
    else PruneTo(EvictToCount(Stored(c, n)), c.budget)
  }

  /** A full snapshot: it owns the whole interval [0, pos). */
  function InsertChunk<R>(c: Cache<R>, prev: Hash, tokens: seq<Token>, index: nat, state: Snapshot<R>): Cache<R> {
    InsertNode(c, Node(index, ChunkKey(prev, tokens), tokens, state, 0, None))
  }

  /** The checks of a delta insertion: the parent, or the error. */
  function DeltaParent<R>(c: Cache<R>, prev: Hash, tokens: seq<Token>, index: nat, state: Snapshot<R>): Result<Option<Hash>, KvCache.KvError> {
    var start := index * c.chunkSize;
    var end := start + c.chunkSize;
    if start > MAX_USIZE || end > MAX_USIZE then Err(KvCache.ContextOverflow(MAX_USIZE, state.pos))
    else if |tokens| != c.chunkSize || state.pos != end then Err(KvCache.DimMismatch(end, state.pos))
    else if start == 0 then (if prev != NO_HASH then Err(KvCache.DimMismatch(0, start)) else Ok(None))
    else if prev !in c.chunks then Err(KvCache.DimMismatch(start, 0))
    else
      var ancestor := c.chunks[prev];
      if ancestor.state.pos != start || ancestor.index + 1 != index then Err(KvCache.DimMismatch(start, ancestor.state.pos))
      else Ok(Some(prev))
  }

  function DeltaNode<R>(c: Cache<R>, prev: Hash, tokens: seq<Token>, index: nat, state: Snapshot<R>, parent: Option<Hash>): Node<R> {
    Node(index, ChunkKey(prev, tokens), tokens, state, index * c.chunkSize, parent)
  }

  function InsertDelta<R>(c: Cache<R>, prev: Hash, tokens: seq<Token>, index: nat, state: Snapshot<R>): Cache<R> {
    match DeltaParent(c, prev, tokens, index, state)
    case Err(_) => c
    case Ok(parent) => InsertNode(c, DeltaNode(c, prev, tokens, index, state, parent))
  }

  // ---------- lookup ----------

  /** The chained hash of the whole chunks of `tokens`. */
  function Chain(tokens: seq<Token>, size: nat): Hash
    requires size > 0
    decreases |tokens|
  {
    if |tokens| < size then NO_HASH
    else ChunkKey(Chain(tokens[..|tokens| - size], size), tokens[|tokens| - size..])
  }

  /** From a matched length p on, the scan goes on while the next chained hash is cached. */
  function Scan<R>(chunks: map<Hash, Node<R>>, tokens: seq<Token>, size: nat, p: nat): (m: nat)
    requires size > 0 && p <= |tokens|
    ensures p <= m <= |tokens|
    decreases |tokens| - p
  {
    if p + size <= |tokens| && Chain(tokens[..p + size], size) in chunks then Scan(chunks, tokens, size, p + size) else p
  }

  /** Matched length of the longest cached prefix; 0 when there is none. */
  function Longest<R>(c: Cache<R>, tokens: seq<Token>): (m: nat)
    requires c.chunkSize > 0
    ensures m <= |tokens|
  {
    Scan(c.chunks, tokens, c.chunkSize, 0)
  }

  function AfterFind<R>(c: Cache<R>, tokens: seq<Token>): Cache<R>
    requires c.chunkSize > 0
  {
    var m := Longest(c, tokens);
    if m == 0 then c else c.(lru := Touched(c.lru, Chain(tokens[..m], c.chunkSize)))
  }

  // ---------- the mutable cache ----------

  class PrefixCache<R> {
    const chunkSize: nat
    const maxChunks: nat
    const budget: nat
    var chunks: map<Hash, Node<R>>
    var lru: seq<Hash>
    var total: nat

    ghost function View(): Cache<R>
      reads this
    {
      Cache(chunkSize, maxChunks, chunks, lru, total, budget)
    }

    /** Zero arguments select the defaults. */
    constructor WithBudget(maxChunks: nat, chunkSize: nat, maxMemoryBytes: nat)
      ensures View().chunks == map[] && View().lru == [] && View().total == 0
      ensures this.chunkSize > 0 && this.maxChunks > 0 && this.budget > 0
      ensures this.chunkSize == if chunkSize > 0 then chunkSize else 64
      ensures this.maxChunks == if maxChunks > 0 then maxChunks else 1024
      ensures this.budget == if maxMemoryBytes > 0 then maxMemoryBytes else 536_870_912
    {
      this.chunkSize := if chunkSize > 0 then chunkSize else PREFIX_CHUNK_SIZE;
      this.maxChunks := if maxChunks > 0 then maxChunks else DEFAULT_MAX_CACHED_CHUNKS;
      this.budget := if maxMemoryBytes > 0 then maxMemoryBytes else DEFAULT_MAX_PREFIX_CACHE_BYTES;
      chunks, lru, total := map[], [], 0;
    }

    method Clear()
      modifies this
      ensures View() == old(View()).(chunks := map[], lru := [], total := 0)
    {
      chunks, lru, total := map[], [], 0;
    }

    method RemoveFromLru(h: Hash)
      modifies this`lru
      ensures lru == Without(old(lru), h)
    {
      var i := 0;
      while i < |lru| && lru[i] != h
        invariant i <= |lru| && lru == old(lru)
        invariant h !in lru[..i]
      {
        assert lru[..i + 1] == lru[..i] + [lru[i]];
        i := i + 1;
      }
      if i < |lru| {
        WithoutAt(lru[..i], h, lru[i + 1..]);
        assert lru == lru[..i] + [h] + lru[i + 1..];
        lru := lru[..i] + lru[i + 1..];
      } else {
        assert lru == lru[..i];
        WithoutAbsent(lru, h);
      }
    }

    method Touch(h: Hash)
      modifies this`lru
      ensures lru == Touched(old(lru), h)
    {
      if h in lru {
        RemoveFromLru(h);
        lru := lru + [h];
      }
    }

    method SelectEvictionHash() returns (best: Option<Hash>)
      ensures best == Victim(chunks, lru)
    {
      best := None;
      for i := 0 to |lru|
        invariant best == Deepest(chunks, lru[..i])
      {
        assert lru[..i + 1][..i] == lru[..i];
        if lru[i] in chunks && (best.None? || chunks[lru[i]].index > chunks[best.value].index) {
          best := Some(lru[i]);
        }
      }
      assert lru[..|lru|] == lru;
      if best.None? && |lru| > 0 {
        best := Some(lru[0]);
      }
    }

    method Evict() returns (removed: bool)
      requires |lru| > 0
      modifies this
      ensures View() == EvictOne(old(View()))
      ensures removed == (|chunks| < |old(chunks)|)
      ensures |chunks| == |old(chunks)| - (if removed then 1 else 0)
    {
      var victim := SelectEvictionHash();
      RemoveFromLru(victim.value);
      removed := victim.value in chunks;
      if removed {
        total := SaturatingSub(total, NodeBytes(chunks[victim.value]));
        ghost var was := chunks;
        chunks := chunks - {victim.value};
        assert was.Keys == chunks.Keys + {victim.value};
      }
    }

    method PruneToBytes(target: nat) returns (evicted: nat)
      modifies this
      ensures View() == PruneTo(old(View()), target)
      ensures evicted == |old(chunks)| - |chunks|
    {
      evicted := 0;
      while total > target && |lru| > 0
        invariant PruneTo(View(), target) == PruneTo(old(View()), target)
        invariant evicted == |old(chunks)| - |chunks|
        decreases |lru|
      {
        var removed := Evict();
        if removed { evicted := evicted + 1; }
      }
    }

    method EvictWhileTooMany()
      modifies this
      ensures View() == EvictToCount(old(View()))
    {
      while |chunks| > maxChunks && |lru| > 0
        invariant EvictToCount(View()) == EvictToCount(old(View()))
        decreases |lru|
      {
        var _ := Evict();
      }
    }

    method DoInsertNode(prev: Hash, tokens: seq<Token>, index: nat, state: Snapshot<R>, kvStart: nat, parent: Option<Hash>)
      returns (hash: Hash)
      modifies this
      ensures hash == ChunkKey(prev, tokens)
      ensures View() == InsertNode(old(View()), Node(index, hash, tokens, state, kvStart, parent))
    {
      hash := ComputeChunkHash(prev, tokens);
      if hash in chunks {
        Touch(hash);
        return;
      }
      var chunk := Node(index, hash, tokens, state, kvStart, parent);
      chunks := chunks[hash := chunk];
      lru := lru + [hash];
      total := SaturatingAdd(total, NodeBytes(chunk));
      EvictWhileTooMany();
      var _ := PruneToBytes(budget);
    }

    method DoInsertDelta(prev: Hash, tokens: seq<Token>, index: nat, state: Snapshot<R>) returns (r: Result<Hash, KvCache.KvError>)
      modifies this
      ensures View() == InsertDelta(old(View()), prev, tokens, index, state)
      ensures match DeltaParent(old(View()), prev, tokens, index, state)
        case Err(e) => r == Err(e)
        case Ok(_) => r == Ok(ChunkKey(prev, tokens))
    {
      var parent := DeltaCheck(prev, tokens, index, state);
      if parent.Err? { return Err(parent.error); }
      var hash := DoInsertNode(prev, tokens, index, state, index * chunkSize, parent.value);
      r := Ok(hash);
    }

    /** What a delta chunk must satisfy, and the parent it then gets. */
    method DeltaCheck(prev: Hash, tokens: seq<Token>, index: nat, state: Snapshot<R>) returns (r: Result<Option<Hash>, KvCache.KvError>)
      ensures r == DeltaParent(View(), prev, tokens, index, state)
    {
      var start := index * chunkSize;
      var end := start + chunkSize;
      if start > MAX_USIZE || end > MAX_USIZE { return Err(KvCache.ContextOverflow(MAX_USIZE, state.pos)); }
      if |tokens| != chunkSize || state.pos != end { return Err(KvCache.DimMismatch(end, state.pos)); }
      if start == 0 {
        if prev != NO_HASH { return Err(KvCache.DimMismatch(0, start)); }
        r := Ok(None);
      } else {
        if prev !in chunks { return Err(KvCache.DimMismatch(start, 0)); }
        var ancestor := chunks[prev];
        if ancestor.state.pos != start || ancestor.index + 1 != index {
          return Err(KvCache.DimMismatch(start, ancestor.state.pos));
        }
        r := Ok(Some(prev));
      }
    }

    /** The matched length (0: no match) and the key of the deepest matched chunk. */
    method FindLongestPrefix(tokens: seq<Token>) returns (matched: nat, hash: Hash)
      requires chunkSize > 0
      modifies this`lru
      ensures matched == Longest(old(View()), tokens) && View() == AfterFind(old(View()), tokens)
      ensures hash == Chain(tokens[..matched], chunkSize)
    {
      matched, hash := ScanChunks(chunks, tokens, chunkSize);
      if matched > 0 {
        Touch(hash);
      }
    }
  }

  /** The chained hash one chunk further on. */
  method NextKey(tokens: seq<Token>, size: nat, p: nat, current: Hash) returns (next: Hash)
    requires size > 0 && p + size <= |tokens| && current == Chain(tokens[..p], size)
    ensures next == Chain(tokens[..p + size], size)
  {
    next := ComputeChunkHash(current, tokens[p..p + size]);
    ChainNext(tokens, size, p);
  }

  /** The lookup loop: it stops at the first chunk that is not cached. */
  method ScanChunks<R>(chunks: map<Hash, Node<R>>, tokens: seq<Token>, size: nat) returns (matched: nat, hash: Hash)
    requires size > 0
    ensures matched == Scan(chunks, tokens, size, 0) && hash == Chain(tokens[..matched], size)
  {
    matched, hash := 0, NO_HASH;
    while matched + size <= |tokens|
      invariant matched <= |tokens| && hash == Chain(tokens[..matched], size)
      invariant Scan(chunks, tokens, size, matched) == Scan(chunks, tokens, size, 0)
      decreases |tokens| - matched
    {
      var current := NextKey(tokens, size, matched, hash);
      if current !in chunks {
        break;
      }
      matched, hash := matched + size, current;
    }
  }

  lemma {:induction false} WithoutAbsent(q: seq<Hash>, h: Hash)
    requires h !in q
    ensures Without(q, h) == q
  {
    if |q| > 0 { WithoutAbsent(q[1..], h); }
  }

  /** Without removes the first occurrence and nothing else. */
  lemma {:induction false} WithoutAt(before: seq<Hash>, h: Hash, after: seq<Hash>)
    requires h !in before
    ensures Without(before + [h] + after, h) == before + after
  {
    var q := before + [h] + after;
    if |before| == 0 {
      assert q[1..] == after;
    } else {
      assert q[1..] == before[1..] + [h] + after;
      WithoutAt(before[1..], h, after);
    }
  }

  /** One more chunk of the chain. */
  lemma ChainNext(tokens: seq<Token>, size: nat, p: nat)
    requires size > 0 && p + size <= |tokens|
    ensures Chain(tokens[..p + size], size) == ChunkKey(Chain(tokens[..p], size), tokens[p..p + size])
  {
    var t := tokens[..p + size];
    assert t[..|t| - size] == tokens[..p];
    assert t[|t| - size..] == tokens[p..p + size];
  }
}
