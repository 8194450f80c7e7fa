/** Restoring a cached chain, chunk by chunk, rebuilds what a cold run of its tokens leaves. */
module WarmRestore {
  import opened Common
  import opened Layout
  import opened KvCache
  import opened ChunkHash
  import opened PrefixCache
  import opened PrefixInvariant
  import opened PrefixLookup
  import opened Layers
  import opened HybridMemory
  import opened Forward
  import opened ColdRun
  import opened WarmCache

  /** The node of a cached beginning holds its snapshot. */
  lemma CachedSnap(s: Setup, used: iset<seq<Token>>, c: Cache<int>, t: seq<Token>)
    requires Faithful(s, used, c) && t in used && Whole(|t|, s.size) && Chain(t, s.size) in c.chunks
    ensures Known(s, t) && HoldsChain(c.chunks[Chain(t, s.size)], t, s.size) && c.chunks[Chain(t, s.size)].state == Snap(s, t)
  {
    var h := Chain(t, s.size);
    OwnerOfChain(used, s.size, t);
    assert FaithfulKey(s, used, c.chunks, h);
  }

  // ---------- the path of a cached beginning ----------

  /** The keys of the chunks of the first q tokens, in order. */
  function Keys(tokens: seq<Token>, size: nat, q: nat): (keys: seq<Hash>)
    requires size > 0 && q <= |tokens|
  {
    if q < size then [] else Keys(tokens, size, q - size) + [Chain(tokens[..q], size)]
  }

  lemma {:induction false} KeysAt(tokens: seq<Token>, size: nat, q: nat, k: nat)
    requires size > 0 && q <= |tokens| && Whole(q, size) && k < |Keys(tokens, size, q)|
    ensures Span(k + 1, size) <= q && Keys(tokens, size, q)[k] == Chain(tokens[..Span(k + 1, size)], size)
  {
    KeysLength(tokens, size, q);
    if k < |Keys(tokens, size, q)| - 1 { KeysAt(tokens, size, q - size, k); }
  }

  lemma {:induction false} KeysLength(tokens: seq<Token>, size: nat, q: nat)
    requires size > 0 && q <= |tokens| && Whole(q, size)
    ensures Span(|Keys(tokens, size, q)|, size) == q
  {
    if q > 0 { KeysLength(tokens, size, q - size); }
  }

  /** A cached beginning's node names the previous beginning as its parent. */
  predicate NamesParent<R>(chunks: map<Hash, Node<R>>, tokens: seq<Token>, size: nat, q: nat)
    requires size > 0 && size <= q <= |tokens|
  {
    CachedAt(chunks, tokens, size, q) && chunks[Chain(tokens[..q], size)].parent == if q == size then None else Some(Chain(tokens[..q - size], size))
  }

  lemma CachedNamesParent(s: Setup, used: iset<seq<Token>>, c: Cache<int>, tokens: seq<Token>, q: nat)
    requires Faithful(s, used, c) && s.size <= q <= |tokens| && tokens[..q] in used && CachedAt(c.chunks, tokens, s.size, q)
    ensures NamesParent(c.chunks, tokens, s.size, q)
  {
    var t := tokens[..q];
    CachedSnap(s, used, c, t);
    var before := t[..|t| - s.size];
    assert before == tokens[..q - s.size];
  }

  lemma PathOfRoot<R>(chunks: map<Hash, Node<R>>, h: Hash)
    requires Forest(chunks) && h in chunks && chunks[h].parent.None?
    ensures Path(chunks, h) == [h]
  {
  }

  lemma PathOfChild<R>(chunks: map<Hash, Node<R>>, h: Hash, p: Hash)
    requires Forest(chunks) && h in chunks && chunks[h].parent == Some(p)
    ensures p in chunks && Path(chunks, h) == Path(chunks, p) + [h]
  {
    assert Linked(chunks, h, chunks[h]);
  }

  /** The parent walk from a cached beginning visits exactly its chunks. */
  lemma {:induction false} PathIsKeys<R>(chunks: map<Hash, Node<R>>, tokens: seq<Token>, size: nat, q: nat)
    requires size > 0 && Forest(chunks) && size <= q <= |tokens| && CachedAt(chunks, tokens, size, q)
    requires forall p :: size <= p <= q && CachedAt(chunks, tokens, size, p) ==> NamesParent(chunks, tokens, size, p)
    ensures Path(chunks, Chain(tokens[..q], size)) == Keys(tokens, size, q)
    decreases q
  {
    var h := Chain(tokens[..q], size);
    assert NamesParent(chunks, tokens, size, q);
    if q == size {
      PathOfRoot(chunks, h);
    } else {
      WholeGap(size, q, size);
      var p := Chain(tokens[..q - size], size);
      PathOfChild(chunks, h, p);
      PathIsKeys(chunks, tokens, size, q - size);
    }
  }

  lemma CachedPath(s: Setup, used: iset<seq<Token>>, c: Cache<int>, tokens: seq<Token>, q: nat)
    requires Faithful(s, used, c) && Forest(c.chunks) && Covers(used, tokens)
    requires s.size <= q <= |tokens| && CachedAt(c.chunks, tokens, s.size, q)
    ensures Path(c.chunks, Chain(tokens[..q], s.size)) == Keys(tokens, s.size, q)
  {
    forall p | s.size <= p <= q && CachedAt(c.chunks, tokens, s.size, p) ensures NamesParent(c.chunks, tokens, s.size, p) {
      assert tokens[..p] in used;
      CachedNamesParent(s, used, c, tokens, p);
    }
    PathIsKeys(c.chunks, tokens, s.size, q);
  }

  // ---------- importing the path ----------

  lemma KvRetainsNothing(s: Setup, mem: Memory, tokens: seq<Token>)
    requires SetupOk(s) && MemoryOk(s.m, mem) && |tokens| <= s.m.g.maxSeq
    ensures KvRetains(s, mem, tokens, 0)
  {
    ColdFits(s, tokens);
    forall i | 0 <= i < |s.m.layers| && s.m.layers[i].Attention? ensures Full(s.m, mem, Cold(s, tokens), i, 0) {
      assert RowsOf(s.m, mem, s.m.slots[i], 0) == [];
    }
  }

  lemma SpanFits(g: Shape, len: nat)
    requires len <= g.maxSeq && Span(g.layers, g.maxSeq) <= MAX_USIZE && Span(Span(g.layers, g.maxSeq), g.floats) <= MAX_USIZE
    ensures Span(g.layers, len) <= MAX_USIZE && Span(Span(g.layers, len), g.floats) <= MAX_USIZE
  {
    SpanWider(g.layers, len, g.maxSeq);
    SpanMono(Span(g.layers, len), Span(g.layers, g.maxSeq), g.floats);
  }

  lemma SnapSource(s: Setup, t: seq<Token>) returns (src: Memory)
    requires Known(s, t)
    ensures Retains(s, src, t, |t|) && Snap(s, t) == SnapshotOf(s, src, t)
  {
    var st := Snap(s, t);
    src :| Retains(s, src, t, |t|) && st == SnapshotOf(s, src, t);
  }

  /** The snapshot at the end of t fits, and importing it extends the restored rows by its chunk. */
  lemma RestoreSnap(s: Setup, mem: Memory, tokens: seq<Token>, q: nat, n: nat)
    requires q <= |tokens| && n + s.size == q && KvRetains(s, mem, tokens, n) && Known(s, tokens[..q])
    ensures var st := Snap(s, tokens[..q]);
      && Importable(s.m.g, n, s.size, |st.k|, |st.v|)
      && Span(Span(s.m.g.layers, s.size), s.m.g.rowCells) <= |st.k| && Span(Span(s.m.g.layers, s.size), s.m.g.rowCells) <= |st.v|
      && KvRetains(s, WithKv(mem, s.m.g, n, s.size, st.k, st.v), tokens, q)
  {
    var t := tokens[..q];
    var src := SnapSource(s, t);
    RetainsKv(s, src, t, q);
    KvRetainsPrefix(s, src, t, tokens, q);
    SpanFits(s.m.g, s.size);
    SpanWider(Span(s.m.g.layers, s.size), s.m.g.rowCells, s.m.g.carrierCells);
    RestoreChunk(s, mem, src, tokens, n, s.size);
  }

  /** The recurrent cells of the last snapshot complete the memory. */
  lemma RestoreSnapCells(s: Setup, mem: Memory, tokens: seq<Token>, q: nat)
    requires q <= |tokens| && KvRetains(s, mem, tokens, q) && Known(s, tokens[..q])
    ensures var st := Snap(s, tokens[..q]);
      |st.conv| == |mem.conv| && |st.hidden| == s.hidden && Retains(s, mem.(conv := st.conv, hidden := st.hidden), tokens, q)
  {
    var t := tokens[..q];
    var src := SnapSource(s, t);
    RetainsPrefix(s, src, t, tokens, q);
    RestoreCells(s, mem, src, tokens, q);
  }
}
