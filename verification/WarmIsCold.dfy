/** After any history, a warm run is a cold run. */
module WarmIsCold {
  import opened Common
  import opened Layout
  import KvCache
  import opened ChunkHash
  import PrefixCache
  import opened PrefixInvariant
  import opened PrefixLookup
  import opened Grid
  import opened Layers
  import opened HybridMemory
  import opened Forward
  import opened ColdRun
  import opened WarmCache
  import opened CacheGrowth
  import opened Prefill

  /** What can happen to a session: a prompt in a reset context, a continuation where the context stands or at any other position
      after the first, one generated token, and what its owner does to the prefix cache. */
  datatype Event =
    | Ask(tokens: seq<Token>, strategy: Strategy, cancel: nat -> bool)
    | Continue(tokens: seq<Token>, strategy: Strategy, cancel: nat -> bool)
    | Jump(tokens: seq<Token>, pos: nat, strategy: Strategy, cancel: nat -> bool)
    | Decode(token: Token)
    | Prune(target: nat)
    | Clear

  /** The prompt the model sees: the beginning-of-text token, if the model has one, comes first unless it is there. An empty prompt
      is answered before that. */
  function WithBos(bos: Option<Token>, tokens: seq<Token>): (prompt: seq<Token>)
    ensures |prompt| == 0 <==> |tokens| == 0
    ensures |tokens| <= |prompt| <= |tokens| + 1 && prompt[|prompt| - |tokens|..] == tokens
    ensures bos.Some? && |tokens| > 0 ==> prompt[0] == bos.value
    ensures |prompt| > |tokens| ==> bos.Some? && tokens[0] != bos.value
  {
    if bos.Some? && |tokens| > 0 && tokens[0] != bos.value then [bos.value] + tokens else tokens
  }

  /** The prompts of the history are among those whose hashes are assumed not to collide. */
  ghost predicate EventOk(s: Setup, used: iset<seq<Token>>, event: Event) {
    event.Ask? ==> Covers(used, WithBos(s.bos, event.tokens))
  }

  /** What the context stands for: a text from its beginning, or - after a jump - some other run. */
  datatype Place = At(text: seq<Token>) | Astray(run: Run<LayerState, Vec>)

  function RunAt(s: Setup, place: Place): Run<LayerState, Vec> {
    match place
    case At(text) => Cold(s, text)
    case Astray(run) => run
  }

  function Gone(s: Setup, place: Place, tokens: seq<Token>): Place {
    match place
    case At(text) => At(text + tokens)
    case Astray(run) => Astray(On(run, Embedded(s, tokens)))
  }

  lemma GoneRun(s: Setup, place: Place, tokens: seq<Token>)
    ensures RunAt(s, Gone(s, place, tokens)) == On(RunAt(s, place), Embedded(s, tokens))
  {
    if place.At? { OnCold(s, place.text, tokens); }
  }

  /** The memory is the one a cold run over `text` leaves. */
  ghost predicate Told(session: Session, text: seq<Token>)
    reads session.e
  {
    Retains(session.s, session.e.mem, text, |text|)
  }

  /** The memory stands at the end of the place's run, whose next position is pos. At a text that says: it is the cold one. */
  ghost predicate IsAt(session: Session, place: Place, pos: nat)
    reads session.e
  {
    && Stands(session.s, session.e.mem, RunAt(session.s, place)) && pos == End(RunAt(session.s, place))
    && (place.At? ==> Told(session, place.text) && pos == |place.text|)
  }

  lemma PlaceStands(session: Session, place: Place, pos: nat)
    requires Stands(session.s, session.e.mem, RunAt(session.s, place)) && pos == End(RunAt(session.s, place))
    ensures IsAt(session, place, pos)
  {
    if place.At? { StandsCold(session.s, session.e.mem, place.text); }
  }

  lemma ResetCells(s: Setup, mem: Memory, i: nat)
    requires MemoryOk(s.m, mem) && mem.conv == Zeros(|mem.conv|) && i < |s.m.layers|
    ensures CellsOf(s.m, mem, i) == Zeros(s.m.cells)
  {
    SpanMono(i + 1, |s.m.layers|, s.m.cells);
  }

  /** A reset context retains the empty beginning of every prompt. */
  lemma ResetRetains(s: Setup, mem: Memory, tokens: seq<Token>)
    requires SetupOk(s) && MemoryOk(s.m, mem) && mem.conv == Zeros(|mem.conv|) && mem.hidden == Zeros(s.hidden) && |tokens| <= s.m.g.maxSeq
    ensures Retains(s, mem, tokens, 0)
  {
    ColdFits(s, tokens);
    forall i | 0 <= i < |s.m.layers| ensures CellsOf(s.m, mem, i) == Zeros(s.m.cells) {
      ResetCells(s, mem, i);
    }
    forall i | 0 <= i < |s.m.layers| ensures Full(s.m, mem, Cold(s, tokens), i, 0) {
      if s.m.layers[i].Attention? { assert RowsOf(s.m, mem, s.m.slots[i], 0) == []; }
    }
  }

  // ---------- a start ----------

  /** A new session: an empty cache with the given limits, and a reset context. */
  method Start(s: Setup, e: Engine, maxChunks: nat, budget: nat, ghost used: iset<seq<Token>>) returns (session: Session)
    requires SetupOk(s) && e.m == s.m && e.Valid() && CollisionFree(used, s.size)
    modifies e
    ensures session.Good() && session.s == s && session.e == e && session.used == used && fresh(session) && fresh(session.cache)
    ensures Told(session, [])
  {
    var cache := new PrefixCache.PrefixCache<int>.WithBudget(maxChunks, s.size, budget);
    assert cache.View() == Empty<int>(s.size, cache.maxChunks, cache.budget);
    session := new Session(s, e, cache, used);
    session.ResetContext();
    ResetRetains(s, e.mem, []);
  }

  // ---------- one event ----------

  /** A prompt was answered in a reset context: which calls are refused, and where the memory and the activation then stand. */
  ghost predicate Answered(session: Session, prompt: seq<Token>, strategy: Strategy, cancel: nat -> bool, ok: bool, completed: bool, reused: nat, done: nat)
    reads session.e, session.cache
  {
    && session.Good() && reused <= done <= |prompt| && Told(session, prompt[..done])
    && (ok <==> |prompt| == 0 || cancel(0) || (|prompt| <= session.s.m.g.maxSeq && strategy != Chunked(0)))
    && (ok ==> (completed <==> done == |prompt|))
    && (ok && !completed ==> exists n: nat :: cancel(n))
    && (ok && completed && |prompt| > 0 ==>
      reused < |prompt| && session.e.x == Act(Cold(session.s, prompt), |session.s.m.layers|, |prompt| - 1))
  }

  /** A completed prompt reused the longest cached beginning that leaves a token and, where there was room for all its chunks, has
      left every whole beginning of itself in the cache. */
  ghost predicate Remembered(session: Session, before: Nodes, prompt: seq<Token>, reused: nat)
    reads session.cache
  {
    && session.Linked() && session.cache.chunkSize == before.chunkSize > 0 && |prompt| > 0
    && reused == PrefixCache.Longest(before, prompt[..|prompt| - 1])
    && (RoomForAll(session.s, before, |prompt|) ==> AllCached(session.cache.View().chunks, prompt, session.s.size, |prompt|))
  }

  /** One prompt in a reset context. */
  method Generate(session: Session, tokens: seq<Token>, strategy: Strategy, cancel: nat -> bool)
    returns (ok: bool, completed: bool, reused: nat, done: nat)
    requires session.Good() && Covers(session.used, WithBos(session.s.bos, tokens))
    modifies session.e, session.cache
    ensures Answered(session, WithBos(session.s.bos, tokens), strategy, cancel, ok, completed, reused, done)
    ensures ok && completed && |tokens| > 0 ==> Remembered(session, old(session.cache.View()), WithBos(session.s.bos, tokens), reused)
  {
    var prompt := WithBos(session.s.bos, tokens);
    ok, completed, reused, done := Answer(session, prompt, strategy, cancel);
  }

  /** The first call of the cancellation check comes before the context check. */
  method Answer(session: Session, prompt: seq<Token>, strategy: Strategy, cancel: nat -> bool)
    returns (ok: bool, completed: bool, reused: nat, done: nat)
    requires session.Good() && Covers(session.used, prompt)
    modifies session.e, session.cache
    ensures Answered(session, prompt, strategy, cancel, ok, completed, reused, done)
    ensures ok && completed && |prompt| > 0 ==> Remembered(session, old(session.cache.View()), prompt, reused)
  {
    session.ResetContext();
    ResetRetains(session.s, session.e.mem, []);
    ok, completed, reused, done := true, |prompt| == 0, 0, 0;
    if |prompt| == 0 || cancel(0) { return; }
    if |prompt| > session.s.m.g.maxSeq { return false, false, 0, 0; }
    ok, completed, reused, done := Prompted(session, prompt, strategy, (n: nat) => cancel(n + 1));
  }

  method Prompted(session: Session, tokens: seq<Token>, strategy: Strategy, cancel: nat -> bool)
    returns (ok: bool, completed: bool, reused: nat, done: nat)
    requires session.Good() && Covers(session.used, tokens) && Told(session, []) && |session.e.mem.hidden| == session.s.hidden
    requires 0 < |tokens| <= session.s.m.g.maxSeq
    modifies session.e, session.cache
    ensures session.Good() && reused <= done <= |tokens| && reused < |tokens| && Told(session, tokens[..done])
    ensures ok <==> strategy != Chunked(0)
    ensures ok ==> (completed <==> done == |tokens|)
    ensures ok && !completed ==> exists n: nat :: cancel(n)
    ensures ok && completed ==> session.e.x == Act(Cold(session.s, tokens), |session.s.m.layers|, |tokens| - 1)
    ensures ok && completed ==> Remembered(session, old(session.cache.View()), tokens, reused)
  {
    RetainsPrefix(session.s, session.e.mem, [], tokens, 0);
    ok, completed, reused, done := session.Prompt(tokens, strategy, cancel);
    RetainsBeginning(session.s, session.e.mem, tokens, done);
  }

  lemma RetainsBeginning(s: Setup, mem: Memory, tokens: seq<Token>, n: nat)
    requires Retains(s, mem, tokens, n)
    ensures n <= |tokens| && Retains(s, mem, tokens[..n], |tokens[..n]|)
  {
    RetainsPrefix(s, mem, tokens, tokens[..n], n);
  }

  /** n tokens from position pos on run to their end: never cancelled, within the context, in a possible prefill order. */
  ghost predicate Uninterrupted(s: Setup, pos: nat, n: nat, strategy: Strategy, cancel: nat -> bool) {
    (forall call: nat :: !cancel(call)) && pos + n <= s.m.g.maxSeq && strategy != Chunked(0)
  }

  /** One event, with the context at `place` and its next position pos. */
  method Handle(session: Session, event: Event, ghost place: Place, pos: nat) returns (ghost now: Place, next: nat)
    requires session.Good() && IsAt(session, place, pos) && EventOk(session.s, session.used, event)
    modifies session.e, session.cache
    ensures session.Good() && IsAt(session, now, next)
    ensures event.Ask? ==> now.At? && now.text <= WithBos(session.s.bos, event.tokens)
    ensures event.Ask? && Uninterrupted(session.s, 0, |WithBos(session.s.bos, event.tokens)|, event.strategy, event.cancel) ==>
      now == At(WithBos(session.s.bos, event.tokens))
    ensures event.Continue? && pos > 0 && Uninterrupted(session.s, pos, |event.tokens|, event.strategy, event.cancel) ==>
      now == Gone(session.s, place, event.tokens)
    ensures event.Jump? && 0 < event.pos != pos && |event.tokens| > 0 && Uninterrupted(session.s, event.pos, |event.tokens|, event.strategy, event.cancel) ==>
      now == Landed(session.s, old(session.e.mem), event.pos, event.tokens)
    ensures event.Continue? ==> exists n: nat :: n <= |event.tokens| && now == Gone(session.s, place, event.tokens[..n])
    ensures event.Jump? && (event.pos == pos || event.pos == 0 || event.pos > session.s.m.g.maxSeq) && place.At? ==>
      now.At? && place.text <= now.text
    ensures event.Prune? || event.Clear? ==> now == place
    ensures event.Decode? ==> if pos < session.s.m.g.maxSeq then
        now == Gone(session.s, place, [event.token]) && session.e.x == Act(RunAt(session.s, now), |session.s.m.layers|, |RunAt(session.s, place).xs|)
      else now == place
  {
    match event {
      case Ask(tokens, strategy, cancel) =>
        now, next := Asked(session, tokens, strategy, cancel);
      case Continue(tokens, strategy, cancel) =>
        ghost var n;
        now, next, n := Continued(session, tokens, strategy, cancel, place, pos);
      case Jump(tokens, at, strategy, cancel) =>
        now, next := Jumped(session, tokens, at, strategy, cancel, place, pos);
      case Decode(token) =>
        now, next := Decoded(session, token, place, pos);
      case Prune(target) =>
        Pruned(session, target, place, pos);
        now, next := place, pos;
      case Clear =>
        Emptied(session, place, pos);
        now, next := place, pos;
    }
  }

  method Asked(session: Session, tokens: seq<Token>, strategy: Strategy, cancel: nat -> bool) returns (ghost now: Place, next: nat)
    requires session.Good() && Covers(session.used, WithBos(session.s.bos, tokens))
    modifies session.e, session.cache
    ensures session.Good() && IsAt(session, now, next) && now.At? && now.text <= WithBos(session.s.bos, tokens)
    ensures Uninterrupted(session.s, 0, |WithBos(session.s.bos, tokens)|, strategy, cancel) ==> now == At(WithBos(session.s.bos, tokens))
  {
    var ok, completed, reused, done := Generate(session, tokens, strategy, cancel);
    now, next := At(WithBos(session.s.bos, tokens)[..done]), done;
    ToldThere(session, now.text, next);
    AskedAll(session, WithBos(session.s.bos, tokens), strategy, cancel, ok, completed, reused, done);
  }

  lemma AskedAll(session: Session, prompt: seq<Token>, strategy: Strategy, cancel: nat -> bool, ok: bool, completed: bool, reused: nat, done: nat)
    requires Answered(session, prompt, strategy, cancel, ok, completed, reused, done)
    ensures Uninterrupted(session.s, 0, |prompt|, strategy, cancel) ==> prompt[..done] == prompt
  {
    if Uninterrupted(session.s, 0, |prompt|, strategy, cancel) {
      assert !cancel(0);
      assert ok && completed;
    }
  }

  lemma ToldThere(session: Session, text: seq<Token>, pos: nat)
    requires Told(session, text) && pos == |text|
    ensures IsAt(session, At(text), pos)
  {
    StandsCold(session.s, session.e.mem, text);
  }

  /** At position 0 the source treats it as a prompt, which is the event above. */
  method Continued(session: Session, tokens: seq<Token>, strategy: Strategy, cancel: nat -> bool, ghost place: Place, pos: nat)
    returns (ghost now: Place, next: nat, ghost n: nat)
    requires session.Good() && IsAt(session, place, pos)
    modifies session.e
    ensures session.Good() && IsAt(session, now, next) && n <= |tokens| && now == Gone(session.s, place, tokens[..n])
    ensures pos > 0 && Uninterrupted(session.s, pos, |tokens|, strategy, cancel) ==> now == Gone(session.s, place, tokens)
  {
    var done := 0;
    StaysThere(session, place, pos, tokens);
    if pos > 0 {
      var ok, completed;
      ghost var r := RunAt(session.s, place);
      ok, completed, done := session.Continue(r, tokens, pos, strategy, cancel);
      ContinuedThere(session, place, r, tokens[..done], pos + done);
    }
    n, next := done, pos + done;
    now := Gone(session.s, place, tokens[..n]);
    assert n == |tokens| ==> tokens[..n] == tokens;
  }

  lemma StaysThere(session: Session, place: Place, pos: nat, tokens: seq<Token>)
    requires IsAt(session, place, pos)
    ensures IsAt(session, Gone(session.s, place, tokens[..0]), pos)
  {
    assert place.At? ==> place.text + tokens[..0] == place.text;
    assert On(RunAt(session.s, place), Embedded(session.s, tokens[..0])) == RunAt(session.s, place);
  }

  lemma ContinuedThere(session: Session, place: Place, r: Run<LayerState, Vec>, more: seq<Token>, next: nat)
    requires r == RunAt(session.s, place) && Stands(session.s, session.e.mem, On(r, Embedded(session.s, more))) && next == End(r) + |more|
    ensures IsAt(session, Gone(session.s, place, more), next)
  {
    GoneRun(session.s, place, more);
    PlaceStands(session, Gone(session.s, place, more), next);
  }

  /** A prompt at a position of the caller's choice. Past the end of the context it is refused. */
  method Jumped(session: Session, tokens: seq<Token>, at: nat, strategy: Strategy, cancel: nat -> bool, ghost place: Place, pos: nat)
    returns (ghost now: Place, next: nat)
    requires session.Good() && IsAt(session, place, pos)
    modifies session.e
    ensures session.Good() && IsAt(session, now, next)
    ensures (at == pos || at == 0 || at > session.s.m.g.maxSeq) && place.At? ==> now.At? && place.text <= now.text
    ensures 0 < at && at != pos && |tokens| > 0 && Uninterrupted(session.s, at, |tokens|, strategy, cancel) ==>
      now == Landed(session.s, old(session.e.mem), at, tokens)
  {
    now, next := place, pos;
    if at == pos {
      ghost var n;
      now, next, n := Continued(session, tokens, strategy, cancel, place, pos);
    } else if 0 < at <= session.s.m.g.maxSeq {
      now, next := Elsewhere(session, tokens, at, strategy, cancel, place, pos);
    }
  }

  /** Where tokens at a position of the caller's choice lead. */
  ghost function Landed(s: Setup, mem: Memory, at: nat, tokens: seq<Token>): Place
    requires SlotsOk(s.m) && MemoryOk(s.m, mem) && at <= s.m.g.maxSeq
  {
    Astray(On(Here(s, mem, at), Embedded(s, tokens)))
  }

  /** The layers build on whatever the memory holds below that position; if no token is done, the context stands where it stood. */
  method Elsewhere(session: Session, tokens: seq<Token>, at: nat, strategy: Strategy, cancel: nat -> bool, ghost place: Place, pos: nat)
    returns (ghost now: Place, next: nat)
    requires session.Good() && IsAt(session, place, pos) && 0 < at <= session.s.m.g.maxSeq
    modifies session.e
    ensures session.Good() && IsAt(session, now, next)
    ensures |tokens| > 0 && Uninterrupted(session.s, at, |tokens|, strategy, cancel) ==> now == Landed(session.s, old(session.e.mem), at, tokens)
  {
    now, next := place, pos;
    ghost var r := Here(session.s, session.e.mem, at);
    StandsHere(session.s, session.e.mem, at);
    var done := GoOn(session, r, tokens, at, strategy, cancel);
    if done > 0 {
      now, next := Astray(On(r, Embedded(session.s, tokens[..done]))), at + done;
    }
    AllTaken(tokens, done);
  }

  method GoOn(session: Session, ghost r: Run<LayerState, Vec>, tokens: seq<Token>, at: nat, strategy: Strategy, cancel: nat -> bool) returns (done: nat)
    requires session.Good() && Stands(session.s, session.e.mem, r) && at == End(r) > 0
    modifies session.e
    ensures session.Good() && done <= |tokens| && Stands(session.s, session.e.mem, On(r, Embedded(session.s, tokens[..done])))
    ensures done == 0 ==> session.e.mem == old(session.e.mem)
    ensures Uninterrupted(session.s, at, |tokens|, strategy, cancel) ==> done == |tokens|
  {
    var ok, completed;
    ok, completed, done := session.Continue(r, tokens, at, strategy, cancel);
  }

  lemma AllTaken(tokens: seq<Token>, done: nat)
    requires done <= |tokens|
    ensures done == |tokens| ==> tokens[..done] == tokens
  {
  }

  /** A generated token goes through the layers unless the context is full. */
  method Decoded(session: Session, token: Token, ghost place: Place, pos: nat) returns (ghost now: Place, next: nat)
    requires session.Good() && IsAt(session, place, pos)
    modifies session.e
    ensures session.Good() && IsAt(session, now, next)
    ensures if pos < session.s.m.g.maxSeq then
        now == Gone(session.s, place, [token]) && session.e.x == Act(RunAt(session.s, now), |session.s.m.layers|, |RunAt(session.s, place).xs|)
      else now == place
  {
    now, next := place, pos;
    if pos < session.s.m.g.maxSeq {
      ghost var r := RunAt(session.s, place);
      session.AppendToken(r, token, pos);
      now, next := Gone(session.s, place, [token]), pos + 1;
      DecodedThere(session, place, r, token, next);
    }
  }

  lemma DecodedThere(session: Session, place: Place, r: Run<LayerState, Vec>, token: Token, next: nat)
    requires r == RunAt(session.s, place) && Stands(session.s, session.e.mem, On(r, [session.s.embed(token)])) && next == End(r) + 1
    ensures RunAt(session.s, Gone(session.s, place, [token])) == On(r, [session.s.embed(token)])
    ensures IsAt(session, Gone(session.s, place, [token]), next)
  {
    assert Embedded(session.s, [token]) == [session.s.embed(token)];
    GoneRun(session.s, place, [token]);
    ContinuedThere(session, place, r, [token], next);
  }

  method Pruned(session: Session, target: nat, ghost place: Place, ghost pos: nat)
    requires session.Good() && IsAt(session, place, pos)
    modifies session.cache
    ensures session.Good() && IsAt(session, place, pos)
  {
    ghost var c := session.cache.View();
    PruneKeepsSound(c, target);
    PruneKeepsFaithful(session.s, session.used, c, target);
    var _ := session.cache.PruneToBytes(target);
  }

  method Emptied(session: Session, ghost place: Place, ghost pos: nat)
    requires session.Good() && IsAt(session, place, pos)
    modifies session.cache
    ensures session.Good() && IsAt(session, place, pos)
  {
    ghost var c := session.cache.View();
    ClearKeeps(session.s, session.used, c);
    session.cache.Clear();
  }

  function Cleared(c: Nodes): Nodes {
    c.(chunks := map[], lru := [], total := 0)
  }

  lemma ClearKeeps(s: Setup, used: iset<seq<Token>>, c: Nodes)
    requires Sound(c) && Faithful(s, used, c)
    ensures Sound(Cleared(c)) && Faithful(s, used, Cleared(c))
  {
  }

  // ---------- any history ----------

  /** Any history of prompts - complete, cancelled or refused - continuations, jumps, generated tokens, prunings and clearings:
      at its end the memory stands where the events led, and that is at a text, cold, if there was no jump. */
  method Replay(session: Session, events: seq<Event>, ghost place: Place, pos: nat) returns (ghost now: Place, next: nat)
    requires session.Good() && IsAt(session, place, pos)
    requires forall i :: 0 <= i < |events| ==> EventOk(session.s, session.used, events[i])
    modifies session.e, session.cache
    ensures session.Good() && IsAt(session, now, next)
    ensures place.At? && (forall i :: 0 <= i < |events| ==> !events[i].Jump?) ==> now.At?
  {
    now, next := place, pos;
    for i := 0 to |events|
      invariant session.Good() && IsAt(session, now, next)
      invariant place.At? && (forall j :: 0 <= j < i ==> !events[j].Jump?) ==> now.At?
    {
      now, next := Handle(session, events[i], now, next);
    }
  }

  /** From a new session, through any history, an uncancelled prompt leaves the KV rows, the recurrent cells and the final
      activation of a cold run, whichever prefill order was used then or is used now, and computes at least its last token. */
  method WarmAnswer(s: Setup, e: Engine, maxChunks: nat, budget: nat, ghost used: iset<seq<Token>>, events: seq<Event>, tokens: seq<Token>, strategy: Strategy)
    returns (session: Session, reused: nat)
    requires SetupOk(s) && e.m == s.m && e.Valid() && CollisionFree(used, s.size)
    requires forall i :: 0 <= i < |events| ==> EventOk(s, used, events[i])
    requires 0 < |tokens| && |WithBos(s.bos, tokens)| <= s.m.g.maxSeq && Covers(used, WithBos(s.bos, tokens)) && strategy != Chunked(0)
    modifies e
    ensures session.Good() && session.s == s && session.e == e
    ensures reused < |WithBos(s.bos, tokens)| && Finished(session, WithBos(s.bos, tokens))
  {
    session := Start(s, e, maxChunks, budget, used);
    StandsCold(s, e.mem, []);
    ghost var place;
    var pos;
    place, pos := Replay(session, events, At([]), 0);
    reused := Finish(session, tokens, strategy);
  }

  /** The prompt can be run: it fits the context, its chains are among those in use, and the prefill order is a possible one. */
  ghost predicate Askable(session: Session, tokens: seq<Token>, strategy: Strategy) {
    && 0 < |tokens| && |WithBos(session.s.bos, tokens)| <= session.s.m.g.maxSeq
    && Covers(session.used, WithBos(session.s.bos, tokens)) && strategy != Chunked(0)
  }

  /** The context stands at the end of the prompt as a cold run leaves it. */
  ghost predicate Finished(session: Session, prompt: seq<Token>)
    reads session.e
  {
    |prompt| > 0 && Told(session, prompt) && session.e.x == Act(Cold(session.s, prompt), |session.s.m.layers|, |prompt| - 1)
  }

  method Finish(session: Session, tokens: seq<Token>, strategy: Strategy) returns (reused: nat)
    requires session.Good() && Askable(session, tokens, strategy)
    modifies session.e, session.cache
    ensures session.Good() && reused < |WithBos(session.s.bos, tokens)| && Finished(session, WithBos(session.s.bos, tokens))
    ensures Remembered(session, old(session.cache.View()), WithBos(session.s.bos, tokens), reused)
  {
    var ok, completed, done;
    ok, completed, reused, done := Generate(session, tokens, strategy, Never);
    AllDone(session, WithBos(session.s.bos, tokens), strategy, ok, completed, reused, done);
  }

  lemma AllDone(session: Session, prompt: seq<Token>, strategy: Strategy, ok: bool, completed: bool, reused: nat, done: nat)
    requires Answered(session, prompt, strategy, Never, ok, completed, reused, done)
    requires 0 < |prompt| <= session.s.m.g.maxSeq && strategy != Chunked(0)
    ensures ok && completed && reused < |prompt| && Finished(session, prompt)
  {
    assert !Never(0);
    assert ok;
    assert completed;
    ToldAll(session, prompt, done);
  }

  lemma ToldAll(session: Session, prompt: seq<Token>, done: nat)
    requires done == |prompt| && Told(session, prompt[..done])
    ensures Told(session, prompt)
  {
    assert prompt[..done] == prompt;
  }

  /** All whole chunks before the last of n tokens. */
  function WholeBefore(n: nat, size: nat): nat
    requires n > 0 && size > 0
  {
    Span((n - 1) / size, size)
  }

  /** The same prompt twice: where the cache had room for its chunks, the second time all whole chunks before the last token are
      reused. */
  method Repeat(session: Session, tokens: seq<Token>, first: Strategy, again: Strategy) returns (reused: nat)
    requires session.Good() && Askable(session, tokens, first) && Askable(session, tokens, again)
    requires session.s.size > 0 && RoomForAll(session.s, session.cache.View(), |WithBos(session.s.bos, tokens)|)
    modifies session.e, session.cache
    ensures session.Good() && Finished(session, WithBos(session.s.bos, tokens))
    ensures reused == WholeBefore(|WithBos(session.s.bos, tokens)|, session.s.size)
  {
    reused := Finish(session, tokens, first);
    ghost var c := session.cache.View();
    AllMatched(session, c, WithBos(session.s.bos, tokens));
    reused := Finish(session, tokens, again);
  }

  lemma AllMatched(session: Session, c: Nodes, prompt: seq<Token>)
    requires session.Good() && c == session.cache.View() && |prompt| > 0 && Covers(session.used, prompt)
    requires AllCached(c.chunks, prompt, session.s.size, |prompt|)
    ensures PrefixCache.Longest(c, prompt[..|prompt| - 1]) == WholeBefore(|prompt|, session.s.size)
  {
    LongestOfAll(session.s, session.used, c, prompt, |prompt| - 1);
  }

  function Never(call: nat): bool {
    false
  }

  // ---------- and why the context must be reset ----------

  /** One recurrent layer that never changes its cells and passes them on. */
  function Echo(cells: nat): Layer {
    Recurrent(x => x, (c: seq<int>, h: Vec) => if |c| == cells then c else Zeros(cells), (c: seq<int>, h: Vec) => c, (x: Vec, m: Vec) => m)
  }

  function EchoSetup(cells: nat): Setup {
    Setup(Model([Echo(cells)], [0], KvCache.Shape(0, 1, 0, 0, 0), cells), t => [], 1, 0, None)
  }

  /** Nothing weaker than zero cells will do: from any others, a prompt without a cached beginning may end elsewhere than a cold run. */
  lemma StaleCellsShow(c: seq<int>, t: Token)
    requires c != Zeros(|c|)
    ensures SetupOk(EchoSetup(|c|))
    ensures var s := EchoSetup(|c|);
      Act(RunOf(s.m.layers, [Conv(c)], 0, Embedded(s, [t])), 1, 0) != Act(Cold(s, [t]), 1, 0)
  {
    var s := EchoSetup(|c|);
    var xs := Embedded(s, [t]);
    RunOut(s.m.layers, [Conv(c)], 0, xs, 0, 0, 0);
    RunNext(s.m.layers, [Conv(c)], 0, xs, 0, 0, 0);
    RunOut(s.m.layers, FreshStates(s.m), 0, xs, 0, 0, 0);
    RunNext(s.m.layers, FreshStates(s.m), 0, xs, 0, 0, 0);
  }
}
