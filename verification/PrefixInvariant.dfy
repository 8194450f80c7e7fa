/** What every reachable prefix cache keeps, under any interleaving of its operations. */
module PrefixInvariant {
  import opened Common
  import opened ChunkHash
  import opened PrefixCache

  // ---------- the invariant ----------

  predicate NoRepeats(q: seq<Hash>) {
    forall i, j :: 0 <= i < j < |q| ==> q[i] != q[j]
  }

  /** The queue lists exactly the cached keys, each once. */
  ghost predicate Lists<R>(q: seq<Hash>, chunks: map<Hash, Node<R>>) {
    NoRepeats(q) && forall h :: h in q <==> h in chunks
  }

  /** A node is filed under its own hash and starts where its parent, one chunk index lower, ends. */
  predicate Linked<R>(chunks: map<Hash, Node<R>>, h: Hash, n: Node<R>) {
    n.hash == h && n.kvStart <= n.state.pos &&
    match n.parent
    case None => n.kvStart == 0
    case Some(p) => p in chunks && chunks[p].index + 1 == n.index && chunks[p].state.pos == n.kvStart
  }

  predicate Forest<R>(chunks: map<Hash, Node<R>>) {
    forall h :: h in chunks ==> Linked(chunks, h, chunks[h])
  }

  function BytesOf<R>(chunks: map<Hash, Node<R>>, h: Hash): nat {
    if h in chunks then NodeBytes(chunks[h]) else 0
  }

  /** Bytes of all nodes, summed along the queue. */
  function SumBytes<R>(chunks: map<Hash, Node<R>>, q: seq<Hash>): nat {
    if |q| == 0 then 0 else BytesOf(chunks, q[0]) + SumBytes(chunks, q[1..])
  }

  ghost predicate Inv<R>(c: Cache<R>) {
    Lists(c.lru, c.chunks) && Forest(c.chunks) && c.total <= SumBytes(c.chunks, c.lru)
  }

  predicate Within<R>(c: Cache<R>) {
    |c.chunks| <= c.maxChunks && c.total <= c.budget
  }

  /** The recorded byte count is the true one. */
  predicate Exact<R>(c: Cache<R>) {
    c.total == SumBytes(c.chunks, c.lru)
  }

  // ---------- the queue ----------

  lemma {:induction false} WithoutMembers(q: seq<Hash>, h: Hash)
    requires NoRepeats(q)
    ensures forall x :: x in Without(q, h) <==> x in q && x != h
  {
    if |q| == 0 {
    } else if q[0] == h {
      assert q == [h] + q[1..];
    } else {
      assert q == [q[0]] + q[1..];
      assert NoRepeats(q[1..]);
      WithoutMembers(q[1..], h);
    }
  }

  lemma {:induction false} WithoutNoRepeats(q: seq<Hash>, h: Hash)
    requires NoRepeats(q)
    ensures NoRepeats(Without(q, h))
  {
    if |q| > 0 && q[0] != h {
      assert NoRepeats(q[1..]);
      WithoutNoRepeats(q[1..], h);
      WithoutMembers(q[1..], h);
      assert q[0] !in q[1..];
    }
  }

  lemma NoRepeatsAppend(q: seq<Hash>, h: Hash)
    requires NoRepeats(q) && h !in q
    ensures NoRepeats(q + [h])
  {
  }

  lemma TouchedLists<R>(q: seq<Hash>, chunks: map<Hash, Node<R>>, h: Hash)
    requires Lists(q, chunks)
    ensures Lists(Touched(q, h), chunks)
  {
    WithoutMembers(q, h);
    WithoutNoRepeats(q, h);
    NoRepeatsAppend(Without(q, h), h);
  }

  // ---------- byte sums ----------

  lemma {:induction false} SumWithout<R>(chunks: map<Hash, Node<R>>, q: seq<Hash>, h: Hash)
    requires h in q
    ensures SumBytes(chunks, q) == BytesOf(chunks, h) + SumBytes(chunks, Without(q, h))
  {
    if q[0] != h {
      SumWithout(chunks, q[1..], h);
      assert ([q[0]] + Without(q[1..], h))[1..] == Without(q[1..], h);
    }
  }

  lemma {:induction false} SumAppend<R>(chunks: map<Hash, Node<R>>, q: seq<Hash>, h: Hash)
    ensures SumBytes(chunks, q + [h]) == SumBytes(chunks, q) + BytesOf(chunks, h)
  {
    if |q| == 0 {
      assert ([] + [h])[1..] == [];
    } else {
      assert (q + [h])[1..] == q[1..] + [h];
      SumAppend(chunks, q[1..], h);
    }
  }

  /** The sum only looks at the listed keys. */
  lemma {:induction false} SumAgrees<R>(a: map<Hash, Node<R>>, b: map<Hash, Node<R>>, q: seq<Hash>)
    requires forall h :: h in q ==> BytesOf(a, h) == BytesOf(b, h)
    ensures SumBytes(a, q) == SumBytes(b, q)
  {
    if |q| > 0 {
      assert forall h :: h in q[1..] ==> h in q;
      SumAgrees(a, b, q[1..]);
    }
  }

  lemma TouchedSum<R>(chunks: map<Hash, Node<R>>, q: seq<Hash>, h: Hash)
    ensures SumBytes(chunks, Touched(q, h)) == SumBytes(chunks, q)
  {
    if h in q {
      SumWithout(chunks, q, h);
      SumAppend(chunks, Without(q, h), h);
    }
  }

  // ---------- deepest first ----------

  /** Nothing listed lies deeper than the selected entry, and what lies as deep was used later. */
  lemma {:induction false} DeepestIsDeepest<R>(chunks: map<Hash, Node<R>>, q: seq<Hash>, i: nat)
    requires i < |q| && q[i] in chunks
    ensures Deepest(chunks, q).Some?
    ensures chunks[q[i]].index <= chunks[Deepest(chunks, q).value].index
  {
    if i < |q| - 1 { DeepestIsDeepest(chunks, q[..|q| - 1], i); }
  }

  lemma {:induction false} DeepestIsLeastRecent<R>(chunks: map<Hash, Node<R>>, q: seq<Hash>) returns (k: nat)
    requires Deepest(chunks, q).Some?
    ensures k < |q| && q[k] == Deepest(chunks, q).value
    ensures forall i :: 0 <= i < k && q[i] in chunks ==> chunks[q[i]].index < chunks[q[k]].index
  {
    var init := q[..|q| - 1];
    if Deepest(chunks, init).Some? && Deepest(chunks, q) == Deepest(chunks, init) {
      k := DeepestIsLeastRecent(chunks, init);
    } else {
      k := |q| - 1;
      forall i | 0 <= i < k && q[i] in chunks ensures chunks[q[i]].index < chunks[q[k]].index {
        DeepestIsDeepest(chunks, init, i);
      }
    }
  }

  /** Removing a deepest node orphans nobody. */
  lemma ForestWithout<R>(chunks: map<Hash, Node<R>>, v: Hash)
    requires Forest(chunks) && v in chunks
    requires forall h :: h in chunks ==> chunks[h].index <= chunks[v].index
    ensures Forest(chunks - {v})
  {
    var rest := chunks - {v};
    forall h | h in rest ensures Linked(rest, h, rest[h]) {
      assert Linked(chunks, h, chunks[h]);
    }
  }

  // ---------- one eviction ----------

  lemma VictimIsDeepest<R>(c: Cache<R>)
    requires Lists(c.lru, c.chunks) && |c.lru| > 0
    ensures Victim(c.chunks, c.lru).value in c.chunks
    ensures forall h :: h in c.chunks ==> c.chunks[h].index <= c.chunks[Victim(c.chunks, c.lru).value].index
  {
    assert c.lru[0] in c.chunks;
    DeepestIsDeepest(c.chunks, c.lru, 0);
    forall h | h in c.chunks ensures c.chunks[h].index <= c.chunks[Victim(c.chunks, c.lru).value].index {
      var i :| 0 <= i < |c.lru| && c.lru[i] == h;
      DeepestIsDeepest(c.chunks, c.lru, i);
    }
  }

  lemma EvictedLists<R>(c: Cache<R>, v: Hash)
    requires Lists(c.lru, c.chunks) && v in c.chunks
    ensures Lists(Without(c.lru, v), c.chunks - {v})
  {
    WithoutMembers(c.lru, v);
    WithoutNoRepeats(c.lru, v);
  }

  /** The sum loses exactly the victim's bytes. */
  lemma EvictedSum<R>(c: Cache<R>, v: Hash)
    requires Lists(c.lru, c.chunks) && v in c.chunks
    ensures SumBytes(c.chunks, c.lru) == NodeBytes(c.chunks[v]) + SumBytes(c.chunks - {v}, Without(c.lru, v))
  {
    SumWithout(c.chunks, c.lru, v);
    WithoutMembers(c.lru, v);
    SumAgrees(c.chunks, c.chunks - {v}, Without(c.lru, v));
  }

  lemma EvictOneKeeps<R>(c: Cache<R>)
    requires Inv(c) && |c.lru| > 0
    ensures Inv(EvictOne(c)) && (Exact(c) ==> Exact(EvictOne(c)))
  {
    var v := Victim(c.chunks, c.lru).value;
    VictimIsDeepest(c);
    ForestWithout(c.chunks, v);
    EvictedLists(c, v);
    EvictedSum(c, v);
  }

  lemma {:induction false} EvictToCountKeeps<R>(c: Cache<R>)
    requires Inv(c)
    ensures Inv(EvictToCount(c)) && (Exact(c) ==> Exact(EvictToCount(c)))
    decreases |c.lru|
  {
    if |c.chunks| > c.maxChunks && |c.lru| > 0 {
      EvictOneKeeps(c);
      EvictToCountKeeps(EvictOne(c));
    }
  }

  lemma {:induction false} PruneToKeeps<R>(c: Cache<R>, target: nat)
    requires Inv(c)
    ensures Inv(PruneTo(c, target)) && (Exact(c) ==> Exact(PruneTo(c, target)))
    decreases |c.lru|
  {
    if c.total > target && |c.lru| > 0 {
      EvictOneKeeps(c);
      PruneToKeeps(EvictOne(c), target);
    }
  }

  // ---------- budgets ----------

  lemma EmptyQueue<R>(c: Cache<R>)
    requires Inv(c) && |c.lru| == 0
    ensures |c.chunks| == 0 && c.total == 0
  {
    assert forall h :: h in c.chunks <==> h in c.lru;
    assert c.chunks == map[];
  }

  lemma {:induction false} EvictToCountMeets<R>(c: Cache<R>)
    requires Inv(c)
    ensures |EvictToCount(c).chunks| <= c.maxChunks
    decreases |c.lru|
  {
    if |c.lru| == 0 {
      EmptyQueue(c);
    } else if |c.chunks| > c.maxChunks {
      EvictOneKeeps(c);
      EvictToCountMeets(EvictOne(c));
    }
  }

  lemma {:induction false} PruneToMeets<R>(c: Cache<R>, target: nat)
    requires Inv(c)
    ensures PruneTo(c, target).total <= target && |PruneTo(c, target).chunks| <= |c.chunks|
    decreases |c.lru|
  {
    if |c.lru| == 0 {
      EmptyQueue(c);
    } else if c.total > target {
      EvictOneKeeps(c);
      EvictOneSmaller(c);
      PruneToMeets(EvictOne(c), target);
    }
  }

  lemma EvictOneSmaller<R>(c: Cache<R>)
    requires |c.lru| > 0
    ensures |EvictOne(c).chunks| <= |c.chunks|
  {
    var v := Victim(c.chunks, c.lru).value;
    if v in c.chunks { assert c.chunks.Keys == (c.chunks - {v}).Keys + {v}; }
  }

  // ---------- insertion ----------

  predicate Attachable<R>(c: Cache<R>, n: Node<R>) {
    n.hash !in c.chunks && Linked(c.chunks, n.hash, n)
  }

  lemma ForestWith<R>(chunks: map<Hash, Node<R>>, n: Node<R>)
    requires Forest(chunks) && n.hash !in chunks && Linked(chunks, n.hash, n)
    ensures Forest(chunks[n.hash := n])
  {
    var more := chunks[n.hash := n];
    forall h | h in more ensures Linked(more, h, more[h]) {
      if h != n.hash { assert Linked(chunks, h, chunks[h]); }
    }
  }

  lemma StoredSum<R>(c: Cache<R>, n: Node<R>)
    requires Lists(c.lru, c.chunks) && n.hash !in c.chunks
    ensures SumBytes(c.chunks[n.hash := n], c.lru + [n.hash]) == SumBytes(c.chunks, c.lru) + NodeBytes(n)
  {
    SumAppend(c.chunks[n.hash := n], c.lru, n.hash);
    SumAgrees(c.chunks[n.hash := n], c.chunks, c.lru);
  }

  /** Storing keeps the count exact exactly when it does not saturate. */
  lemma StoredKeeps<R>(c: Cache<R>, n: Node<R>)
    requires Inv(c) && Attachable(c, n)
    ensures Inv(Stored(c, n))
    ensures Exact(c) ==> (Exact(Stored(c, n)) <==> c.total + NodeBytes(n) <= MAX_USIZE)
  {
    ForestWith(c.chunks, n);
    NoRepeatsAppend(c.lru, n.hash);
    StoredSum(c, n);
  }

  lemma TouchKeeps<R>(c: Cache<R>, h: Hash)
    requires Inv(c)
    ensures Inv(c.(lru := Touched(c.lru, h))) && (Exact(c) ==> Exact(c.(lru := Touched(c.lru, h))))
  {
    TouchedLists(c.lru, c.chunks, h);
    TouchedSum(c.chunks, c.lru, h);
  }

  lemma InsertNodeKeeps<R>(c: Cache<R>, n: Node<R>)
    requires Inv(c) && (n.hash in c.chunks || Attachable(c, n))
    ensures Inv(InsertNode(c, n))
    ensures Exact(c) && c.total + NodeBytes(n) <= MAX_USIZE ==> Exact(InsertNode(c, n))
  {
    if n.hash in c.chunks {
      TouchKeeps(c, n.hash);
    } else {
      StoredKeeps(c, n);
      EvictToCountKeeps(Stored(c, n));
      PruneToKeeps(EvictToCount(Stored(c, n)), c.budget);
    }
  }

  lemma {:induction false} EvictToCountFrame<R>(c: Cache<R>)
    ensures EvictToCount(c).budget == c.budget && EvictToCount(c).maxChunks == c.maxChunks
    ensures EvictToCount(c).chunkSize == c.chunkSize
    decreases |c.lru|
  {
    if |c.chunks| > c.maxChunks && |c.lru| > 0 { EvictToCountFrame(EvictOne(c)); }
  }

  lemma {:induction false} PruneToFrame<R>(c: Cache<R>, target: nat)
    ensures PruneTo(c, target).budget == c.budget && PruneTo(c, target).maxChunks == c.maxChunks
    ensures PruneTo(c, target).chunkSize == c.chunkSize
    decreases |c.lru|
  {
    if c.total > target && |c.lru| > 0 { PruneToFrame(EvictOne(c), target); }
  }

  /** Both budgets are met after every insertion of a new node. */
  lemma InsertNodeMeets<R>(c: Cache<R>, n: Node<R>)
    requires Inv(c) && (n.hash in c.chunks ==> Within(c)) && (n.hash !in c.chunks ==> Attachable(c, n))
    ensures Within(InsertNode(c, n))
  {
    if n.hash !in c.chunks {
      var s := Stored(c, n);
      StoredKeeps(c, n);
      EvictToCountKeeps(s);
      EvictToCountMeets(s);
      EvictToCountFrame(s);
      PruneToMeets(EvictToCount(s), c.budget);
      PruneToFrame(EvictToCount(s), c.budget);
    }
  }

  /** An accepted delta insertion hangs its node below a cached parent that ends where it starts. */
  lemma DeltaAttaches<R>(c: Cache<R>, prev: Hash, tokens: seq<Token>, index: nat, state: Snapshot<R>)
    requires Inv(c) && DeltaParent(c, prev, tokens, index, state).Ok?
    ensures var n := DeltaNode(c, prev, tokens, index, state, DeltaParent(c, prev, tokens, index, state).value);
      n.hash in c.chunks || Attachable(c, n)
  {
  }

  // ---------- whole histories ----------

  datatype Op<R> =
    | InsertFull(prev: Hash, tokens: seq<Token>, index: nat, state: Snapshot<R>)
    | Insert(prev: Hash, tokens: seq<Token>, index: nat, state: Snapshot<R>)
    | Find(tokens: seq<Token>)
    | Prune(target: nat)
    | Clear

  function Apply<R>(c: Cache<R>, op: Op<R>): Cache<R>
    requires c.chunkSize > 0
  {
    match op
    case InsertFull(prev, tokens, index, state) => InsertChunk(c, prev, tokens, index, state)
    case Insert(prev, tokens, index, state) => InsertDelta(c, prev, tokens, index, state)
    case Find(tokens) => AfterFind(c, tokens)
    case Prune(target) => PruneTo(c, target)
    case Clear => c.(chunks := map[], lru := [], total := 0)
  }

  ghost predicate Sound<R>(c: Cache<R>) {
    c.chunkSize > 0 && Inv(c) && Within(c)
  }

  /** The number of bytes the operation may add. */
  function Added<R>(c: Cache<R>, op: Op<R>): nat
    requires c.chunkSize > 0
  {
    match op
    case InsertFull(prev, tokens, index, state) => NodeBytes(Node(index, ChunkKey(prev, tokens), tokens, state, 0, None))
    case Insert(prev, tokens, index, state) =>
      NodeBytes(DeltaNode(c, prev, tokens, index, state, None))
    case _ => 0
  }

  lemma InsertNodeFrame<R>(c: Cache<R>, n: Node<R>)
    ensures InsertNode(c, n).chunkSize == c.chunkSize
  {
    EvictToCountFrame(Stored(c, n));
    PruneToFrame(EvictToCount(Stored(c, n)), c.budget);
  }

  lemma InsertFullKeeps<R>(c: Cache<R>, n: Node<R>)
    requires Sound(c) && n.parent.None? && n.kvStart == 0
    ensures Sound(InsertNode(c, n))
    ensures Exact(c) && c.total + NodeBytes(n) <= MAX_USIZE ==> Exact(InsertNode(c, n))
  {
    InsertNodeKeeps(c, n);
    InsertNodeMeets(c, n);
    InsertNodeFrame(c, n);
  }

  lemma InsertDeltaKeeps<R>(c: Cache<R>, prev: Hash, tokens: seq<Token>, index: nat, state: Snapshot<R>)
    requires Sound(c)
    ensures Sound(InsertDelta(c, prev, tokens, index, state))
    ensures Exact(c) && c.total + NodeBytes(DeltaNode(c, prev, tokens, index, state, None)) <= MAX_USIZE
      ==> Exact(InsertDelta(c, prev, tokens, index, state))
  {
    match DeltaParent(c, prev, tokens, index, state)
    case Err(_) =>
    case Ok(parent) =>
      var n := DeltaNode(c, prev, tokens, index, state, parent);
      DeltaAttaches(c, prev, tokens, index, state);
      InsertNodeKeeps(c, n);
      InsertNodeMeets(c, n);
      InsertNodeFrame(c, n);
  }

  lemma FindKeepsSound<R>(c: Cache<R>, tokens: seq<Token>)
    requires Sound(c)
    ensures Sound(AfterFind(c, tokens))
  {
    TouchKeeps(c, Chain(tokens[..Longest(c, tokens)], c.chunkSize));
  }

  lemma PruneKeepsSound<R>(c: Cache<R>, target: nat)
    requires Sound(c)
    ensures Sound(PruneTo(c, target))
  {
    PruneToKeeps(c, target);
    PruneToFrame(c, target);
    PruneWithin(c, target);
  }

  lemma ApplyKeeps<R>(c: Cache<R>, op: Op<R>)
    requires Sound(c)
    ensures Sound(Apply(c, op))
    ensures Exact(c) && c.total + Added(c, op) <= MAX_USIZE ==> Exact(Apply(c, op))
  {
    match op
    case InsertFull(prev, tokens, index, state) =>
      InsertFullKeeps(c, Node(index, ChunkKey(prev, tokens), tokens, state, 0, None));
    case Insert(prev, tokens, index, state) =>
      InsertDeltaKeeps(c, prev, tokens, index, state);
    case Find(tokens) =>
      FindKeepsSound(c, tokens);
      TouchKeeps(c, Chain(tokens[..Longest(c, tokens)], c.chunkSize));
    case Prune(target) =>
      PruneKeepsSound(c, target);
      PruneToKeeps(c, target);
    case Clear =>
  }

  lemma PruneWithin<R>(c: Cache<R>, target: nat)
    requires Sound(c)
    ensures Within(PruneTo(c, target))
  {
    PruneToMeets(c, target);
    PruneToFrame(c, target);
    if c.total <= target { assert PruneTo(c, target) == c; }
    PruneToLess(c, target);
  }

  lemma {:induction false} PruneToLess<R>(c: Cache<R>, target: nat)
    ensures PruneTo(c, target).total <= c.total
    decreases |c.lru|
  {
    if c.total > target && |c.lru| > 0 { PruneToLess(EvictOne(c), target); }
  }

  lemma SoundForest<R>(c: Cache<R>)
    requires Sound(c)
    ensures Forest(c.chunks)
  {
  }

  function Empty<R>(chunkSize: nat, maxChunks: nat, budget: nat): Cache<R> {
    Cache(chunkSize, maxChunks, map[], [], 0, budget)
  }

  ghost function After<R>(c: Cache<R>, ops: seq<Op<R>>): (r: Cache<R>)
    requires Sound(c)
    ensures Sound(r)
  {
    if |ops| == 0 then c
    else
      var before := After(c, ops[..|ops| - 1]);
      ApplyKeeps(before, ops[|ops| - 1]);
      Apply(before, ops[|ops| - 1])
  }

  predicate Saturates<R>(c: Cache<R>, op: Op<R>)
    requires c.chunkSize > 0
  {
    c.total + Added(c, op) > MAX_USIZE
  }

  /** Every reachable cache keeps the invariant and both budgets, and its byte count is exact until an insertion saturates. */
  lemma {:induction false} Reachable<R>(size: nat, maxChunks: nat, budget: nat, ops: seq<Op<R>>)
    requires size > 0
    ensures Sound(Empty<R>(size, maxChunks, budget))
    ensures var c := After(Empty<R>(size, maxChunks, budget), ops);
      Sound(c) && ((forall i :: 0 <= i < |ops| ==> !Saturates(After(Empty<R>(size, maxChunks, budget), ops[..i]), ops[i])) ==> Exact(c))
  {
    var e := Empty<R>(size, maxChunks, budget);
    assert Sound(e);
    if |ops| > 0 {
      var init := ops[..|ops| - 1];
      Reachable(size, maxChunks, budget, init);
      ApplyKeeps(After(e, init), ops[|ops| - 1]);
      if forall i :: 0 <= i < |ops| ==> !Saturates(After(e, ops[..i]), ops[i]) {
        forall i | 0 <= i < |init| ensures !Saturates(After(e, init[..i]), init[i]) {
          assert init[..i] == ops[..i];
        }
      }
    }
  }

  // ---------- the parent walk ----------

  /** The keys from the root down to h; every step goes to a smaller chunk index. */
  function Path<R>(chunks: map<Hash, Node<R>>, h: Hash): (path: seq<Hash>)
    requires Forest(chunks) && h in chunks
    ensures |path| > 0 && path[|path| - 1] == h
    decreases chunks[h].index
  {
    assert Linked(chunks, h, chunks[h]);
    match chunks[h].parent
    case None => [h]
    case Some(p) => Path(chunks, p) + [h]
  }

  /** Consecutive owners cover the prefix without gap or overlap. */
  predicate Abuts<R>(chunks: map<Hash, Node<R>>, path: seq<Hash>, i: nat)
    requires i < |path|
  {
    path[i] in chunks &&
    chunks[path[i]].kvStart == if i == 0 then 0 else if path[i - 1] in chunks then chunks[path[i - 1]].state.pos else 0
  }

  lemma {:induction false} PathCovers<R>(chunks: map<Hash, Node<R>>, h: Hash, i: nat)
    requires Forest(chunks) && h in chunks && i < |Path(chunks, h)|
    ensures Abuts(chunks, Path(chunks, h), i)
    decreases chunks[h].index
  {
    assert Linked(chunks, h, chunks[h]);
    match chunks[h].parent
    case None =>
    case Some(p) =>
      var init := Path(chunks, p);
      if i < |init| {
        PathCovers(chunks, p, i);
      } else {
        PathCovers(chunks, p, |init| - 1);
      }
  }

  /** The path down to an optional key, empty above a root. */
  function Ancestors<R>(chunks: map<Hash, Node<R>>, current: Option<Hash>): seq<Hash>
    requires Forest(chunks) && (current.Some? ==> current.value in chunks)
  {
    if current.Some? then Path(chunks, current.value) else []
  }

  function Height<R>(chunks: map<Hash, Node<R>>, current: Option<Hash>): nat {
    if current.Some? && current.value in chunks then chunks[current.value].index + 1 else 0
  }

  lemma AncestorsStep<R>(chunks: map<Hash, Node<R>>, key: Hash, path: seq<Hash>)
    requires Forest(chunks) && key in chunks
    ensures var parent := chunks[key].parent;
      && (parent.Some? ==> parent.value in chunks)
      && Height(chunks, parent) < Height(chunks, Some(key))
      && Ancestors(chunks, parent) + ([key] + path) == Ancestors(chunks, Some(key)) + path
  {
    var parent := chunks[key].parent;
    assert Linked(chunks, key, chunks[key]);
    assert Path(chunks, key) == Ancestors(chunks, parent) + [key];
  }

  /** The walk of `restore_longest_prefix`, from the deepest key up. */
  method WalkParents<R>(chunks: map<Hash, Node<R>>, h: Hash) returns (path: seq<Hash>)
    requires Forest(chunks) && h in chunks
    ensures path == Path(chunks, h)
  {
    path := [];
    var current := Some(h);
    while current.Some?
      invariant current.Some? ==> current.value in chunks
      invariant Ancestors(chunks, current) + path == Path(chunks, h)
      decreases Height(chunks, current)
    {
      var key := current.value;
      AncestorsStep(chunks, key, path);
      path := [key] + path;
      current := chunks[key].parent;
    }
  }
}
