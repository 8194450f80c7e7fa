/** Prompt processing with prefix reuse: warm runs end exactly where cold runs end. */
module Prefill {
  import opened Common
  import opened Layout
  import opened KvCache
  import opened ChunkHash
  import PrefixCache
  import opened PrefixInvariant
  import opened PrefixLookup
  import opened Grid
  import opened Layers
  import opened HybridMemory
  import opened Forward
  import opened ColdRun
  import opened WarmCache
  import opened WarmRestore
  import opened CacheGrowth

  type Nodes = PrefixCache.Cache<int>

  /** The greatest whole number of chunks up to n. */
  function Floor(n: nat, size: nat): (f: nat)
    requires size > 0
    ensures f <= n < f + size && Whole(f, size)
  {
    if n < size then 0 else Floor(n - size, size) + size
  }

  lemma {:induction false} FloorAt(n: nat, size: nat)
    requires size > 0
    ensures Whole(n, size) <==> Floor(n, size) == n
  {
    if n >= size { FloorAt(n - size, size); }
  }

  lemma {:induction false} FloorStep(n: nat, size: nat)
    requires size > 0 && !Whole(n + 1, size)
    ensures Floor(n + 1, size) == Floor(n, size)
  {
    if n >= size { FloorStep(n - size, size); }
  }

  lemma {:induction false} FloorStays(from: nat, to: nat, size: nat)
    requires size > 0 && from <= to && forall e :: from < e <= to ==> !Whole(e, size)
    ensures Floor(to, size) == Floor(from, size)
  {
    if from < to {
      FloorStays(from, to - 1, size);
      FloorStep(to - 1, size);
    }
  }

  lemma {:induction false} FloorBefore(n: nat, size: nat)
    requires size > 0 && n > 0 && Whole(n, size)
    ensures n >= size && Floor(n - 1, size) == n - size
  {
    if n > size { FloorBefore(n - size, size); }
  }

  /** Running on from retained tokens retains more of them. */
  lemma SyncedRetains(s: Setup, before: Memory, after: Memory, tokens: seq<Token>, n: nat, to: nat)
    requires Retains(s, before, tokens, n) && MemoryOk(s.m, after) && to <= |tokens|
    requires Synced(s.m, after, Cold(s, tokens), to) && Spared(s.m, before, after)
    ensures Retains(s, after, tokens, to)
  {
    forall i | 0 <= i < |s.m.layers| && s.m.layers[i].Attention? ensures CellsOf(s.m, after, i) == Zeros(s.m.cells) {
      assert CellsOf(s.m, before, i) == Zeros(s.m.cells);
    }
  }

  // ---------- the bookkeeping of a stretch of prefill ----------

  /** After prefilling (from, to]: the memory retains the tokens and the cache has had every boundary inserted. */
  ghost predicate Progress(s: Setup, mem: Memory, before: Nodes, now: Nodes, tokens: seq<Token>, from: nat, to: nat) {
    && s.size > 0 && from <= to <= |tokens| && Retains(s, mem, tokens, to) && KnownAll(s, tokens, from, to)
    && now == Boundaries(s, before, tokens, from, to)
  }

  lemma ProgressStart(s: Setup, mem: Memory, c: Nodes, tokens: seq<Token>, from: nat)
    requires Retains(s, mem, tokens, from)
    ensures Progress(s, mem, c, c, tokens, from, from)
  {
  }

  /** Tokens that end no chunk change the memory only. */
  lemma ProgressPlain(s: Setup, mem: Memory, after: Memory, before: Nodes, now: Nodes, tokens: seq<Token>, from: nat, mid: nat, to: nat)
    requires Progress(s, mem, before, now, tokens, from, mid) && mid <= to && Retains(s, after, tokens, to)
    requires forall e :: mid < e <= to ==> !Whole(e, s.size)
    ensures Progress(s, after, before, now, tokens, from, to)
  {
    assert KnownAll(s, tokens, from, to);
    NoBoundary(s, before, tokens, from, mid, to);
  }

  lemma BoundaryKnown(s: Setup, after: Memory, tokens: seq<Token>, from: nat, mid: nat, to: nat)
    requires s.size > 0 && from <= mid < to <= |tokens| && KnownAll(s, tokens, from, mid) && Retains(s, after, tokens, to) && Whole(to, s.size)
    requires forall e :: mid < e < to ==> !Whole(e, s.size)
    ensures Known(s, tokens[..to]) && KnownAll(s, tokens, from, to)
  {
    var t := tokens[..to];
    RetainsPrefix(s, after, tokens, t, to);
    FloorBefore(to, s.size);
    SnapshotIsSnap(s, after, t);
  }

  lemma BoundariesStep(s: Setup, c: Nodes, tokens: seq<Token>, from: nat, mid: nat, to: nat)
    requires s.size > 0 && from <= mid < to <= |tokens| && KnownAll(s, tokens, from, to) && Whole(to, s.size)
    requires forall e :: mid < e < to ==> !Whole(e, s.size)
    ensures Known(s, tokens[..to]) && Boundaries(s, c, tokens, from, to) == Boundary(s, Boundaries(s, c, tokens, from, mid), tokens[..to])
  {
    var last := to - 1;
    var before := Boundaries(s, c, tokens, from, last);
    assert Boundaries(s, c, tokens, from, to) == Boundary(s, before, tokens[..to]);
    NoBoundary(s, c, tokens, from, mid, last);
  }

  /** At a boundary the snapshot goes into the cache as well. */
  lemma ProgressBoundary(s: Setup, mem: Memory, after: Memory, before: Nodes, now: Nodes, tokens: seq<Token>, from: nat, mid: nat, to: nat)
    requires Progress(s, mem, before, now, tokens, from, mid) && mid < to && Retains(s, after, tokens, to) && Whole(to, s.size)
    requires forall e :: mid < e < to ==> !Whole(e, s.size)
    ensures Known(s, tokens[..to]) && Progress(s, after, before, Boundary(s, now, tokens[..to]), tokens, from, to)
  {
    BoundaryKnown(s, after, tokens, from, mid, to);
    BoundariesStep(s, before, tokens, from, mid, to);
  }

  method ChunkIndex(start: nat, size: nat) returns (index: nat)
    requires size > 0
    ensures index == Count(start, size)
  {
    WholeIsMod(start, size);
    index := start / size;
  }

  method AtBoundary(n: nat, size: nat) returns (b: bool)
    requires size > 0
    ensures b == Whole(n, size)
  {
    WholeIsMod(n, size);
    b := n % size == 0;
  }

  datatype Strategy = ByToken | Chunked(tile: nat)

  /** One model with its prefix cache. `used` holds the prompts of the session's whole history with their beginnings. */
  class Session {
    const s: Setup
    const e: Engine
    const cache: PrefixCache.PrefixCache<int>
    ghost const used: iset<seq<Token>>

    ghost predicate Linked()
    {
      SetupOk(s) && e.m == s.m && cache.chunkSize == s.size
    }

    /** What every prompt, complete or cancelled, every pruning and every clearing keeps. */
    ghost predicate Good()
      reads e, cache
    {
      Linked() && e.Valid() && Sound(cache.View()) && Faithful(s, used, cache.View())
    }

    constructor (s: Setup, e: Engine, cache: PrefixCache.PrefixCache<int>, ghost used: iset<seq<Token>>)
      requires SetupOk(s) && e.m == s.m && cache.chunkSize == s.size
      ensures Linked() && this.s == s && this.e == e && this.cache == cache && this.used == used
    {
      this.s, this.e, this.cache, this.used := s, e, cache, used;
    }

    /** `reset_context`: recurrent cells back to zero; the KV rows stay, unread. */
    method ResetContext()
      requires Linked() && e.Valid()
      modifies e
      ensures e.Valid() && e.mem == old(e.mem).(conv := Zeros(|old(e.mem.conv)|), hidden := Zeros(s.hidden))
    {
      e.mem := e.mem.(conv := Zeros(|e.mem.conv|), hidden := Zeros(s.hidden));
    }

    /** The state at the end of t, exported. */
    method TakeSnapshot(t: seq<Token>) returns (state: PrefixCache.Snapshot<int>)
      requires Linked() && e.Valid() && s.size <= |t| && Retains(s, e.mem, t, |t|)
      ensures Known(s, t) && state == Snap(s, t)
    {
      var start, size := |t| - s.size, s.size;
      var standalone := ComputeChunkHash(NO_HASH, t[start..]);
      state := PrefixCache.Snapshot(|t|, standalone, Export(e.mem.k, s.m.g, start, size), Export(e.mem.v, s.m.g, start, size), e.mem.conv, e.mem.hidden);
      SnapshotIsSnap(s, e.mem, t);
    }

    /** `cache_prefill_boundary`: hash, export, insert; a refused insertion is ignored. */
    method CacheBoundary(t: seq<Token>, prev: Hash) returns (hash: Hash)
      requires Linked() && e.Valid() && s.size <= |t| && Whole(|t|, s.size) && Retains(s, e.mem, t, |t|)
      requires prev == PrefixCache.Chain(t[..|t| - s.size], s.size)
      modifies cache
      ensures Known(s, t) && cache.View() == Boundary(s, old(cache.View()), t)
      ensures hash == PrefixCache.Chain(t, s.size)
    {
      var start, size := |t| - s.size, s.size;
      var chunk := t[start..];
      hash := PrefixCache.NextKey(t, size, start, prev);
      assert t[..start + size] == t;
      var state := TakeSnapshot(t);
      var index := ChunkIndex(start, size);
      BoundaryIs(s, cache.View(), t, prev, chunk, index, state);
      var _ := cache.DoInsertDelta(prev, chunk, index, state);
    }

    /** The end of one step or tile: cache the boundary if there is one. */
    method AfterTile(tokens: seq<Token>, ghost c0: Nodes, ghost m0: Memory, ghost from: nat, ghost mid: nat, to: nat, prev: Hash) returns (hash: Hash)
      requires Linked() && e.Valid() && from <= mid < to <= |tokens|
      requires Progress(s, m0, c0, cache.View(), tokens, from, mid) && Retains(s, e.mem, tokens, to)
      requires forall q :: mid < q < to ==> !Whole(q, s.size)
      requires prev == PrefixCache.Chain(tokens[..Floor(mid, s.size)], s.size)
      modifies cache
      ensures Progress(s, e.mem, c0, cache.View(), tokens, from, to)
      ensures hash == PrefixCache.Chain(tokens[..Floor(to, s.size)], s.size)
    {
      var boundary := AtBoundary(to, s.size);
      if boundary {
        hash := EndChunk(tokens, c0, m0, from, mid, to, prev);
      } else {
        hash := prev;
        ProgressPlain(s, m0, e.mem, c0, cache.View(), tokens, from, mid, to);
        FloorStays(mid, to, s.size);
      }
    }

    method EndChunk(tokens: seq<Token>, ghost c0: Nodes, ghost m0: Memory, ghost from: nat, ghost mid: nat, to: nat, prev: Hash) returns (hash: Hash)
      requires Linked() && e.Valid() && from <= mid < to <= |tokens| && Whole(to, s.size)
      requires Progress(s, m0, c0, cache.View(), tokens, from, mid) && Retains(s, e.mem, tokens, to)
      requires forall q :: mid < q < to ==> !Whole(q, s.size)
      requires prev == PrefixCache.Chain(tokens[..Floor(mid, s.size)], s.size)
      modifies cache
      ensures Progress(s, e.mem, c0, cache.View(), tokens, from, to)
      ensures hash == PrefixCache.Chain(tokens[..Floor(to, s.size)], s.size)
    {
      var t := tokens[..to];
      ghost var was := cache.View();
      BoundaryPrev(tokens, mid, to, s.size);
      RetainsPrefix(s, e.mem, tokens, t, to);
      hash := CacheBoundary(t, prev);
      ProgressBoundary(s, m0, e.mem, c0, was, tokens, from, mid, to);
      FloorAt(to, s.size);
    }

    method AdvanceToken(tokens: seq<Token>, i: nat)
      requires Linked() && e.Valid() && i < |tokens| && Retains(s, e.mem, tokens, i)
      modifies e`mem, e`x
      ensures e.Valid() && Retains(s, e.mem, tokens, i + 1) && e.x == Act(Cold(s, tokens), |s.m.layers|, i)
    {
      ghost var was := e.mem;
      e.ForwardStep(s.embed(tokens[i]), i, Cold(s, tokens), i);
      SyncedRetains(s, was, e.mem, tokens, i, i + 1);
    }

    method AdvanceTile(tokens: seq<Token>, cursor: nat, end: nat)
      requires Linked() && e.Valid() && cursor < end <= |tokens| && Retains(s, e.mem, tokens, cursor)
      modifies e`mem, e`x
      ensures e.Valid() && Retains(s, e.mem, tokens, end) && e.x == Act(Cold(s, tokens), |s.m.layers|, end - 1)
    {
      var tile := seq(end - cursor, q requires 0 <= q < end - cursor => s.embed(tokens[cursor + q]));
      assert Acts(Cold(s, tokens), 0, cursor, tile);
      FeedTile(tokens, tile, cursor, end);
    }

    /** A tile of embedded tokens through the layers. */
    method FeedTile(ghost tokens: seq<Token>, tile: seq<Vec>, cursor: nat, end: nat)
      requires Linked() && e.Valid() && Retains(s, e.mem, tokens, cursor) && |tile| > 0 && end == cursor + |tile| <= |tokens|
      requires Acts(Cold(s, tokens), 0, cursor, tile)
      modifies e`mem, e`x
      ensures e.Valid() && Retains(s, e.mem, tokens, end) && e.x == Act(Cold(s, tokens), |s.m.layers|, end - 1)
    {
      ghost var was := e.mem;
      e.ForwardTile(tile, cursor, Cold(s, tokens), cursor);
      SyncedRetains(s, was, e.mem, tokens, cursor, end);
    }

    // ---------- beyond the prompt: no lookup, no caching ----------

    /** One more token where the context stands. */
    method AppendToken(ghost r: Run<LayerState, Vec>, token: Token, pos: nat)
      requires Linked() && Stands(s, e.mem, r) && pos == End(r) < s.m.g.maxSeq
      modifies e`mem, e`x
      ensures Stands(s, e.mem, On(r, [s.embed(token)]))
      ensures e.x == Act(On(r, [s.embed(token)]), |s.m.layers|, |r.xs|)
    {
      ghost var was, q := e.mem, On(r, [s.embed(token)]);
      StandsOn(s, was, r, [s.embed(token)]);
      e.ForwardStep(s.embed(token), pos, q, |r.xs|);
      StandsAfter(s, was, e.mem, r, q);
    }

    /** One more tile where the context stands. */
    method AppendTile(ghost r: Run<LayerState, Vec>, tokens: seq<Token>, pos: nat)
      requires Linked() && Stands(s, e.mem, r) && pos == End(r) && 0 < |tokens| && pos + |tokens| <= s.m.g.maxSeq
      modifies e`mem, e`x
      ensures Stands(s, e.mem, On(r, Embedded(s, tokens)))
      ensures e.x == Act(On(r, Embedded(s, tokens)), |s.m.layers|, |r.xs| + |tokens| - 1)
    {
      var tile := Embedded(s, tokens);
      ghost var was, q := e.mem, On(r, tile);
      StandsOn(s, was, r, tile);
      assert Acts(q, 0, |r.xs|, tile);
      e.ForwardTile(tile, pos, q, |r.xs|);
      StandsAfter(s, was, e.mem, r, q);
    }

    /** From where it stood, at the end of r with memory m0, the context has gone on by `tokens`. */
    ghost predicate Extended(m0: Memory, r: Run<LayerState, Vec>, tokens: seq<Token>)
      reads e
      requires Linked()
    {
      var q := On(r, Embedded(s, tokens));
      && Stands(s, e.mem, q)
      && if |tokens| == 0 then e.mem == m0 else e.x == Act(q, |s.m.layers|, |q.xs| - 1)
    }

    lemma NotExtended(r: Run<LayerState, Vec>)
      requires Linked() && Stands(s, e.mem, r)
      ensures Extended(e.mem, r, [])
    {
      assert On(r, Embedded(s, [])) == r;
    }

    method ContinueByToken(ghost r: Run<LayerState, Vec>, tokens: seq<Token>, pos: nat, cancel: nat -> bool) returns (completed: bool, done: nat)
      requires Linked() && Stands(s, e.mem, r) && pos == End(r) && pos + |tokens| <= s.m.g.maxSeq
      modifies e`mem, e`x
      ensures done <= |tokens| && Extended(old(e.mem), r, tokens[..done])
      ensures completed <==> done == |tokens|
      ensures !completed ==> exists n: nat :: cancel(n)
    {
      done := 0;
      var i := 0;
      NotExtended(r);
      assert tokens[..0] == [];
      while i < |tokens|
        invariant 0 <= i <= |tokens| && done == i && Extended(old(e.mem), r, tokens[..i])
      {
        if cancel(i) { return false, done; }
        var next := i + 1;
        ContinueToken(old(e.mem), r, tokens, pos, i, next);
        i, done := next, next;
      }
      completed := true;
    }

    method ContinueToken(ghost m0: Memory, ghost r: Run<LayerState, Vec>, tokens: seq<Token>, pos: nat, i: nat, next: nat)
      requires Linked() && pos == End(r) && i < |tokens| && next == i + 1 && pos + |tokens| <= s.m.g.maxSeq && Extended(m0, r, tokens[..i])
      modifies e`mem, e`x
      ensures Extended(m0, r, tokens[..next])
    {
      OnNext(s, r, tokens, i, next);
      assert Embedded(s, tokens[i..next]) == [s.embed(tokens[i])];
      AppendToken(On(r, Embedded(s, tokens[..i])), tokens[i], pos + i);
    }

    method ContinueTile(ghost m0: Memory, ghost r: Run<LayerState, Vec>, tokens: seq<Token>, pos: nat, cursor: nat, end: nat)
      requires Linked() && pos == End(r) && cursor < end <= |tokens| && pos + |tokens| <= s.m.g.maxSeq && Extended(m0, r, tokens[..cursor])
      modifies e`mem, e`x
      ensures Extended(m0, r, tokens[..end])
    {
      OnNext(s, r, tokens, cursor, end);
      AppendTile(On(r, Embedded(s, tokens[..cursor])), tokens[cursor..end], pos + cursor);
    }

    method ContinueChunked(ghost r: Run<LayerState, Vec>, tokens: seq<Token>, pos: nat, tileTokens: nat, cancel: nat -> bool)
      returns (completed: bool, done: nat)
      requires Linked() && Stands(s, e.mem, r) && pos == End(r) && pos + |tokens| <= s.m.g.maxSeq && tileTokens > 0
      modifies e`mem, e`x
      ensures done <= |tokens| && Extended(old(e.mem), r, tokens[..done])
      ensures completed <==> done == |tokens|
      ensures !completed ==> exists n: nat :: cancel(n)
    {
      done := 0;
      NotExtended(r);
      assert tokens[..0] == [];
      var capacity := if tileTokens <= |tokens| then tileTokens else |tokens|;
      var cursor, calls := 0, 0;
      while cursor < |tokens|
        invariant 0 <= cursor <= |tokens| && done == cursor && Extended(old(e.mem), r, tokens[..cursor])
      {
        if cancel(calls) { return false, done; }
        calls := calls + 1;
        var end := if cursor + capacity <= |tokens| then cursor + capacity else |tokens|;
        ContinueTile(old(e.mem), r, tokens, pos, cursor, end);
        cursor, done := end, end;
      }
      completed := true;
    }

    /** A prompt at a later position: the prefix cache plays no part, the layers go on from what the memory holds. The first call
        of the cancellation check comes before the context check; nothing done leaves the memory as it was. */
    method Continue(ghost r: Run<LayerState, Vec>, tokens: seq<Token>, pos: nat, strategy: Strategy, cancel: nat -> bool)
      returns (ok: bool, completed: bool, done: nat)
      requires Linked() && Stands(s, e.mem, r) && pos == End(r) > 0
      modifies e`mem, e`x
      ensures done <= |tokens| && Extended(old(e.mem), r, tokens[..done])
      ensures ok <==> cancel(0) || (pos + |tokens| <= s.m.g.maxSeq && strategy != Chunked(0))
      ensures ok && !cancel(0) ==> (completed <==> done == |tokens|)
      ensures ok && !completed ==> exists n: nat :: cancel(n)
      ensures !ok || cancel(0) ==> done == 0 && !completed
    {
      ok, completed, done := true, false, 0;
      NotExtended(r);
      assert tokens[..0] == [];
      if cancel(0) { return; }
      if pos + |tokens| > s.m.g.maxSeq || strategy == Chunked(0) { return false, false, 0; }
      completed, done := ContinuePrefill(r, tokens, pos, strategy, (n: nat) => cancel(n + 1));
    }

    method ContinuePrefill(ghost r: Run<LayerState, Vec>, tokens: seq<Token>, pos: nat, strategy: Strategy, cancel: nat -> bool)
      returns (completed: bool, done: nat)
      requires Linked() && Stands(s, e.mem, r) && pos == End(r) && pos + |tokens| <= s.m.g.maxSeq && strategy != Chunked(0)
      modifies e`mem, e`x
      ensures done <= |tokens| && Extended(old(e.mem), r, tokens[..done])
      ensures completed <==> done == |tokens|
      ensures !completed ==> exists n: nat :: cancel(n)
    {
      match strategy {
        case ByToken =>
          completed, done := ContinueByToken(r, tokens, pos, cancel);
        case Chunked(tile) =>
          completed, done := ContinueChunked(r, tokens, pos, tile, cancel);
      }
    }

    // ---------- the prompt ----------

    /** What both prefill orders achieve from token `from` on, up to where they end or are cancelled. */
    ghost predicate Prefilled(c0: Nodes, tokens: seq<Token>, from: nat, done: nat, hash: Hash)
      reads e, cache
      requires Linked()
    {
      && Progress(s, e.mem, c0, cache.View(), tokens, from, done)
      && hash == PrefixCache.Chain(tokens[..Floor(done, s.size)], s.size)
      && (done > from ==> e.x == Act(Cold(s, tokens), |s.m.layers|, done - 1))
    }

    /** `run_token_prefill`; the n-th call of the cancellation check answers cancel(n). */
    method TokenPrefill(tokens: seq<Token>, from: nat, chained: Hash, cancel: nat -> bool) returns (completed: bool, hash: Hash, done: nat)
      requires Linked() && e.Valid() && from <= |tokens| && Retains(s, e.mem, tokens, from)
      requires chained == PrefixCache.Chain(tokens[..Floor(from, s.size)], s.size)
      modifies e`mem, e`x, cache
      ensures e.Valid() && from <= done <= |tokens| && Prefilled(old(cache.View()), tokens, from, done, hash)
      ensures completed <==> done == |tokens|
      ensures !completed ==> exists n: nat :: cancel(n)
    {
      hash, done := chained, from;
      ghost var c0 := cache.View();
      ProgressStart(s, e.mem, c0, tokens, from);
      var i := from;
      while i < |tokens|
        invariant from <= i <= |tokens| && e.Valid() && done == i && Prefilled(c0, tokens, from, i, hash)
      {
        if cancel(i - from) { return false, hash, done; }
        var next := i + 1;
        hash := TokenAndBoundary(tokens, from, i, next, hash, c0);
        i, done := next, next;
      }
      completed := true;
    }

    method TokenAndBoundary(tokens: seq<Token>, ghost from: nat, i: nat, next: nat, prev: Hash, ghost c0: Nodes) returns (hash: Hash)
      requires Linked() && e.Valid() && from <= i < |tokens| && next == i + 1 && Prefilled(c0, tokens, from, i, prev)
      modifies e`mem, e`x, cache
      ensures e.Valid() && Prefilled(c0, tokens, from, next, hash)
    {
      ghost var m0 := e.mem;
      AdvanceToken(tokens, i);
      hash := AfterTile(tokens, c0, m0, from, i, next, prev);
    }

    /** Where the tile that starts at `cursor` ends: never beyond a chunk boundary, never empty. */
    method TileEnd(cursor: nat, capacity: nat, n: nat) returns (end: nat)
      requires Linked() && cursor < n && capacity > 0
      ensures cursor < end <= n && end <= cursor + capacity && forall q :: cursor < q < end ==> !Whole(q, s.size)
      ensures end == n || end == cursor + capacity || Whole(end, s.size)
    {
      var size := s.size;
      NextBoundaryIs(cursor, size);
      var next := (cursor / size + 1) * size;
      var boundary := if next <= n then next else n;
      end := if cursor + capacity <= n then cursor + capacity else n;
      var limit := if boundary >= cursor + 1 then boundary else cursor + 1;
      end := if end <= limit then end else limit;
    }

    /** `run_chunked_prefill`: layer-major tiles that stop at every chunk boundary. */
    method ChunkedPrefill(tokens: seq<Token>, from: nat, chained: Hash, tileTokens: nat, cancel: nat -> bool)
      returns (ok: bool, completed: bool, hash: Hash, done: nat)
      requires Linked() && e.Valid() && from <= |tokens| && Retains(s, e.mem, tokens, from)
      requires chained == PrefixCache.Chain(tokens[..Floor(from, s.size)], s.size)
      modifies e`mem, e`x, cache
      ensures e.Valid() && from <= done <= |tokens| && Prefilled(old(cache.View()), tokens, from, done, hash)
      ensures ok <==> tileTokens > 0
      ensures ok ==> (completed <==> done == |tokens|)
      ensures ok && !completed ==> exists n: nat :: cancel(n)
      ensures !ok ==> done == from
    {
      hash, done := chained, from;
      ghost var c0 := cache.View();
      ProgressStart(s, e.mem, c0, tokens, from);
      if tileTokens == 0 { return false, false, hash, done; }
      if from >= |tokens| { return true, true, hash, done; }
      var capacity := if tileTokens <= |tokens| - from then tileTokens else |tokens| - from;
      var cursor, calls := from, 0;
      while cursor < |tokens|
        invariant from <= cursor <= |tokens| && e.Valid() && done == cursor && Prefilled(c0, tokens, from, cursor, hash)
      {
        if cancel(calls) { return true, false, hash, done; }
        calls := calls + 1;
        var end := TileEnd(cursor, capacity, |tokens|);
        hash := TileAndBoundary(tokens, from, cursor, end, hash, c0);
        cursor, done := end, end;
      }
      ok, completed := true, true;
    }

    method TileAndBoundary(tokens: seq<Token>, ghost from: nat, cursor: nat, end: nat, prev: Hash, ghost c0: Nodes) returns (hash: Hash)
      requires Linked() && e.Valid() && from <= cursor < end <= |tokens| && Prefilled(c0, tokens, from, cursor, prev)
      requires forall q :: cursor < q < end ==> !Whole(q, s.size)
      modifies e`mem, e`x, cache
      ensures e.Valid() && Prefilled(c0, tokens, from, end, hash)
    {
      ghost var m0 := e.mem;
      AdvanceTile(tokens, cursor, end);
      hash := AfterTile(tokens, c0, m0, from, cursor, end, prev);
    }

    /** Imports one cached chunk's interval, unless its sizes do not fit. */
    method ImportChunk(n: PrefixCache.Node<int>) returns (ok: bool)
      requires Linked() && e.Valid()
      modifies e`mem
      ensures e.Valid() && e.mem.conv == old(e.mem.conv) && e.mem.hidden == old(e.mem.hidden)
      ensures ok <==> n.kvStart <= n.state.pos && Importable(s.m.g, n.kvStart, n.state.pos - n.kvStart, |n.state.k|, |n.state.v|)
      ensures ok ==> Span(Span(s.m.g.layers, n.state.pos - n.kvStart), s.m.g.rowCells) <= |n.state.k|
      ensures ok ==> Span(Span(s.m.g.layers, n.state.pos - n.kvStart), s.m.g.rowCells) <= |n.state.v|
      ensures ok ==> e.mem == WithKv(old(e.mem), s.m.g, n.kvStart, n.state.pos - n.kvStart, n.state.k, n.state.v)
      ensures !ok ==> e.mem == old(e.mem)
    {
      if n.kvStart > n.state.pos { return false; }
      var len := n.state.pos - n.kvStart;
      if !Importable(s.m.g, n.kvStart, len, |n.state.k|, |n.state.v|) { return false; }
      SpanWider(Span(s.m.g.layers, len), s.m.g.rowCells, s.m.g.carrierCells);
      e.mem := WithKv(e.mem, s.m.g, n.kvStart, len, n.state.k, n.state.v);
      ok := true;
    }

    /** Imports the nodes of a path, from the root down. */
    method ImportPath(tokens: seq<Token>, chunks: map<Hash, PrefixCache.Node<int>>, path: seq<Hash>) returns (ok: bool)
      requires Linked() && e.Valid() && |tokens| <= s.m.g.maxSeq && Span(|path|, s.size) <= |tokens|
      requires forall k :: 0 <= k < |path| ==> PathNode(s, chunks, tokens, path, k)
      modifies e`mem
      ensures e.Valid() && ok && e.mem.conv == old(e.mem.conv) && e.mem.hidden == old(e.mem.hidden)
      ensures KvRetains(s, e.mem, tokens, Span(|path|, s.size))
    {
      KvRetainsNothing(s, e.mem, tokens);
      for k := 0 to |path|
        invariant e.Valid() && e.mem.conv == old(e.mem.conv) && e.mem.hidden == old(e.mem.hidden)
        invariant Span(k, s.size) <= |tokens| && KvRetains(s, e.mem, tokens, Span(k, s.size))
      {
        assert PathNode(s, chunks, tokens, path, k);
        var imported := ImportNext(tokens, chunks[path[k]], Span(k, s.size), Span(k + 1, s.size));
        if !imported { return false; }
      }
      ok := true;
    }

    method ImportNext(ghost tokens: seq<Token>, n: PrefixCache.Node<int>, ghost from: nat, ghost to: nat) returns (imported: bool)
      requires Linked() && e.Valid() && from + s.size == to <= |tokens| && KvRetains(s, e.mem, tokens, from)
      requires Known(s, tokens[..to]) && n.state == Snap(s, tokens[..to]) && n.kvStart == from && n.state.pos == to
      modifies e`mem
      ensures e.Valid() && imported && e.mem.conv == old(e.mem.conv) && e.mem.hidden == old(e.mem.hidden)
      ensures KvRetains(s, e.mem, tokens, to)
    {
      RestoreSnap(s, e.mem, tokens, to, from);
      imported := ImportChunk(n);
    }

    /** `import_ssm_states`: each array only if its length fits. */
    method ImportCells(conv: seq<int>, hidden: seq<int>)
      requires Linked() && e.Valid()
      modifies e`mem
      ensures e.Valid()
      ensures |conv| == |old(e.mem.conv)| && |hidden| == |old(e.mem.hidden)| ==> e.mem == old(e.mem).(conv := conv, hidden := hidden)
    {
      if |conv| == |e.mem.conv| { e.mem := e.mem.(conv := conv); }
      if |hidden| == |e.mem.hidden| { e.mem := e.mem.(hidden := hidden); }
    }

    /** `restore_longest_prefix` and the import of its recurrent cells; it never fails. */
    method RestoreLongestPrefix(tokens: seq<Token>) returns (ok: bool, matched: nat, hash: Hash)
      requires Good() && |tokens| <= s.m.g.maxSeq && Covers(used, tokens) && |e.mem.hidden| == s.hidden
      modifies e`mem, cache`lru
      ensures ok && e.Valid() && |e.mem.hidden| == s.hidden
      ensures matched == PrefixCache.Longest(old(cache.View()), tokens) && cache.View() == PrefixCache.AfterFind(old(cache.View()), tokens)
      ensures Whole(matched, s.size) && hash == PrefixCache.Chain(tokens[..matched], s.size)
      ensures if matched == 0 then e.mem == old(e.mem) else Retains(s, e.mem, tokens, matched)
    {
      matched, hash := Lookup(tokens);
      if matched == 0 { return true, 0, hash; }
      ok := RestoreMatched(tokens, matched, hash);
    }

    method RestoreMatched(tokens: seq<Token>, matched: nat, hash: Hash) returns (ok: bool)
      requires Linked() && e.Valid() && Faithful(s, used, cache.View()) && Forest(cache.chunks) && Covers(used, tokens)
      requires |tokens| <= s.m.g.maxSeq && |e.mem.hidden| == s.hidden && s.size <= matched <= |tokens|
      requires CachedAt(cache.chunks, tokens, s.size, matched) && tokens[..matched] in used && hash == PrefixCache.Chain(tokens[..matched], s.size)
      modifies e`mem
      ensures ok && e.Valid() && |e.mem.hidden| == s.hidden && Retains(s, e.mem, tokens, matched)
    {
      var node := cache.chunks[hash];
      CachedSnap(s, used, cache.View(), tokens[..matched]);
      if node.state.pos != matched { return false; }
      var path := WalkParents(cache.chunks, hash);
      CachedPath(s, used, cache.View(), tokens, matched);
      PathReady(s, used, cache.View(), tokens, matched);
      ok := ImportPath(tokens, cache.chunks, path);
      if !ok { return; }
      RestoreSnapCells(s, e.mem, tokens, matched);
      ImportCells(node.state.conv, node.state.hidden);
    }

    /** The lookup: what it finds is a cached beginning of the prompt. */
    method Lookup(tokens: seq<Token>) returns (matched: nat, hash: Hash)
      requires Good() && Covers(used, tokens)
      modifies cache`lru
      ensures Linked() && e.Valid() && Faithful(s, used, cache.View()) && Forest(cache.chunks)
      ensures matched == PrefixCache.Longest(old(cache.View()), tokens) && cache.View() == PrefixCache.AfterFind(old(cache.View()), tokens)
      ensures Whole(matched, s.size) && matched <= |tokens| && hash == PrefixCache.Chain(tokens[..matched], s.size)
      ensures matched > 0 ==> s.size <= matched && CachedAt(cache.chunks, tokens, s.size, matched) && tokens[..matched] in used
    {
      ghost var c := cache.View();
      FaithfulIsDelta(s, used, c.chunks);
      SoundForest(c);
      LongestIsMaximum(used, c, tokens);
      FindKeepsFaithful(s, used, c, tokens);
      matched, hash := cache.FindLongestPrefix(tokens);
      assert tokens[..matched] in used;
    }

    /** `run_prefill`. */
    method RunPrefill(tokens: seq<Token>, from: nat, chained: Hash, strategy: Strategy, cancel: nat -> bool)
      returns (ok: bool, completed: bool, hash: Hash, done: nat)
      requires Linked() && e.Valid() && from <= |tokens| && Retains(s, e.mem, tokens, from)
      requires chained == PrefixCache.Chain(tokens[..Floor(from, s.size)], s.size)
      modifies e`mem, e`x, cache
      ensures e.Valid() && from <= done <= |tokens| && Prefilled(old(cache.View()), tokens, from, done, hash)
      ensures ok <==> strategy != Chunked(0)
      ensures ok ==> (completed <==> done == |tokens|)
      ensures ok && !completed ==> exists n: nat :: cancel(n)
      ensures !ok ==> done == from
    {
      match strategy {
        case ByToken =>
          ok := true;
          completed, hash, done := TokenPrefill(tokens, from, chained, cancel);
        case Chunked(tile) =>
          ok, completed, hash, done := ChunkedPrefill(tokens, from, chained, tile, cancel);
      }
    }

    /** Lookup and restore, always leaving the last token to be computed; the matched length. */
    method Reuse(tokens: seq<Token>) returns (reused: nat, chained: Hash)
      requires Good() && 0 < |tokens| <= s.m.g.maxSeq && Covers(used, tokens) && |e.mem.hidden| == s.hidden
      requires Retains(s, e.mem, tokens, 0) || PrefixCache.Longest(cache.View(), tokens[..|tokens| - 1]) > 0
      modifies e`mem, cache`lru
      ensures e.Valid() && reused < |tokens| && Retains(s, e.mem, tokens, reused)
      ensures reused == PrefixCache.Longest(old(cache.View()), tokens[..|tokens| - 1])
      ensures cache.View() == PrefixCache.AfterFind(old(cache.View()), tokens[..|tokens| - 1])
      ensures chained == PrefixCache.Chain(tokens[..Floor(reused, s.size)], s.size)
    {
      var n := |tokens| - 1;
      CoversBeginning(used, tokens, n);
      var ok;
      ok, reused, chained := RestoreLongestPrefix(tokens[..n]);
      ReusedPrefix(s, e.mem, tokens, n, reused);
    }

    /** The prompt part of a generation from position 0, warm or cold.
        It needs what its callers provide by resetting the context first: recurrent cells at zero, unless something is reused. */
    method Prompt(tokens: seq<Token>, strategy: Strategy, cancel: nat -> bool)
      returns (ok: bool, completed: bool, reused: nat, done: nat)
      requires Good() && 0 < |tokens| <= s.m.g.maxSeq && Covers(used, tokens) && |e.mem.hidden| == s.hidden
      requires Retains(s, e.mem, tokens, 0) || PrefixCache.Longest(cache.View(), tokens[..|tokens| - 1]) > 0
      modifies e`mem, e`x, cache
      ensures Good() && reused == PrefixCache.Longest(old(cache.View()), tokens[..|tokens| - 1]) && reused < |tokens|
      ensures reused <= done <= |tokens| && Retains(s, e.mem, tokens, done) && KnownAll(s, tokens, reused, done)
      ensures cache.View() == Boundaries(s, PrefixCache.AfterFind(old(cache.View()), tokens[..|tokens| - 1]), tokens, reused, done)
      ensures ok <==> strategy != Chunked(0)
      ensures ok ==> (completed <==> done == |tokens|)
      ensures ok && !completed ==> exists n: nat :: cancel(n)
      ensures ok && completed ==> e.x == Act(Cold(s, tokens), |s.m.layers|, |tokens| - 1)
      ensures ok && completed && RoomForAll(s, old(cache.View()), |tokens|) ==> AllCached(cache.View().chunks, tokens, s.size, |tokens|)
    {
      var chained, hash;
      ghost var c := cache.View();
      FindKeepsSound(c, tokens[..|tokens| - 1]);
      FindKeepsFaithful(s, used, c, tokens[..|tokens| - 1]);
      reused, chained := Reuse(tokens);
      ghost var c0 := cache.View();
      ok, completed, hash, done := RunPrefill(tokens, reused, chained, strategy, cancel);
      BoundariesKeepFaithful(s, used, c0, tokens, reused, done);
      BoundariesKeepSound(s, c0, tokens, reused, done);
      if done == |tokens| && RoomForAll(s, c, |tokens|) { PromptStored(s, used, c, tokens, |tokens| - 1, reused); }
    }
  }

  lemma ReusedPrefix(s: Setup, mem: Memory, tokens: seq<Token>, n: nat, reused: nat)
    requires s.size > 0 && reused <= n <= |tokens| <= s.m.g.maxSeq && Whole(reused, s.size)
    ensures Retains(s, mem, tokens[..n], reused) ==> Retains(s, mem, tokens, reused)
    ensures PrefixCache.Chain(tokens[..n][..reused], s.size) == PrefixCache.Chain(tokens[..Floor(reused, s.size)], s.size)
  {
    FloorAt(reused, s.size);
    assert tokens[..n][..reused] == tokens[..reused];
    if Retains(s, mem, tokens[..n], reused) { RetainsPrefix(s, mem, tokens[..n], tokens, reused); }
  }

  lemma {:induction false} BoundariesKeepSound(s: Setup, c: Nodes, tokens: seq<Token>, from: nat, to: nat)
    requires s.size > 0 && Sound(c) && to <= |tokens| && KnownAll(s, tokens, from, to)
    ensures Sound(Boundaries(s, c, tokens, from, to))
  {
    if to > from {
      var last := to - 1;
      BoundariesKeepSound(s, c, tokens, from, last);
      if Whole(to, s.size) {
        var before, t := Boundaries(s, c, tokens, from, last), tokens[..to];
        BoundaryKeepsSound(s, before, t);
        assert Boundaries(s, c, tokens, from, to) == Boundary(s, before, t);
      }
    }
  }

  lemma BoundaryKeepsSound(s: Setup, c: Nodes, t: seq<Token>)
    requires s.size > 0 && Sound(c) && Known(s, t)
    ensures Sound(Boundary(s, c, t))
  {
    var last := LastChunk(t, s.size);
    InsertDeltaKeeps(c, last.prev, last.tokens, last.index, Snap(s, t));
  }

  /** Node k of the path holds the snapshot of the first k + 1 chunks, over the last of them. */
  ghost predicate PathNode(s: Setup, chunks: map<Hash, PrefixCache.Node<int>>, tokens: seq<Token>, path: seq<Hash>, k: nat)
    requires k < |path|
  {
    && path[k] in chunks && Span(k + 1, s.size) <= |tokens|
    && Known(s, tokens[..Span(k + 1, s.size)]) && chunks[path[k]].state == Snap(s, tokens[..Span(k + 1, s.size)])
    && chunks[path[k]].kvStart == Span(k, s.size) && chunks[path[k]].state.pos == Span(k + 1, s.size)
  }

  lemma PathNodes(s: Setup, used: iset<seq<Token>>, c: Nodes, tokens: seq<Token>, m: nat, k: nat)
    requires Faithful(s, used, c) && Forest(c.chunks) && Covers(used, tokens) && s.size <= m <= |tokens|
    requires CachedAt(c.chunks, tokens, s.size, m) && k < |Keys(tokens, s.size, m)|
    ensures PathNode(s, c.chunks, tokens, Keys(tokens, s.size, m), k)
  {
    var q := Span(k + 1, s.size);
    KeysAt(tokens, s.size, m, k);
    BeginningCached(s, used, c, tokens, m, k);
    CachedSnap(s, used, c, tokens[..q]);
  }

  lemma PathReady(s: Setup, used: iset<seq<Token>>, c: Nodes, tokens: seq<Token>, m: nat)
    requires Faithful(s, used, c) && Forest(c.chunks) && Covers(used, tokens) && s.size <= m <= |tokens|
    requires CachedAt(c.chunks, tokens, s.size, m)
    ensures Span(|Keys(tokens, s.size, m)|, s.size) == m
    ensures forall k :: 0 <= k < |Keys(tokens, s.size, m)| ==> PathNode(s, c.chunks, tokens, Keys(tokens, s.size, m), k)
  {
    var keys := Keys(tokens, s.size, m);
    KeysLength(tokens, s.size, m);
    forall k | 0 <= k < |keys| ensures PathNode(s, c.chunks, tokens, keys, k) {
      PathNodes(s, used, c, tokens, m, k);
    }
  }

  lemma BoundaryIs(s: Setup, c: Nodes, t: seq<Token>, prev: Hash, chunk: seq<Token>, index: nat, state: PrefixCache.Snapshot<int>)
    requires s.size > 0 && Known(s, t) && state == Snap(s, t) && Chunk(prev, chunk, index) == LastChunk(t, s.size)
    ensures PrefixCache.InsertDelta(c, prev, chunk, index, state) == Boundary(s, c, t)
  {
  }

  /** The last boundary up to `mid` is the start of the chunk that ends at `to`. */
  lemma BoundaryPrev(tokens: seq<Token>, mid: nat, to: nat, size: nat)
    requires size > 0 && mid < to <= |tokens| && Whole(to, size) && forall q :: mid < q < to ==> !Whole(q, size)
    ensures size <= to && Floor(mid, size) == to - size && tokens[..Floor(mid, size)] == tokens[..to][..to - size]
  {
    FloorBefore(to, size);
    FloorStays(mid, to - 1, size);
  }

  /** All shorter whole beginnings of a cached beginning are cached. */
  lemma BeginningCached(s: Setup, used: iset<seq<Token>>, c: Nodes, tokens: seq<Token>, m: nat, k: nat)
    requires Faithful(s, used, c) && Forest(c.chunks) && Covers(used, tokens) && s.size <= m <= |tokens|
    requires CachedAt(c.chunks, tokens, s.size, m) && Span(k + 1, s.size) <= m
    ensures CachedAt(c.chunks, tokens, s.size, Span(k + 1, s.size)) && tokens[..Span(k + 1, s.size)] in used
  {
    FaithfulIsDelta(s, used, c.chunks);
    AllStepBack(used, s.size, c.chunks, tokens);
    SpanWhole(k + 1, s.size);
    BeginningsCached(s.size, c.chunks, tokens, m, Span(k + 1, s.size));
  }

  lemma {:induction false} SpanWhole(k: nat, size: nat)
    requires size > 0
    ensures Whole(Span(k, size), size)
  {
    if k > 0 { SpanWhole(k - 1, size); }
  }
}
