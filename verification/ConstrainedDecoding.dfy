/** The grammar's mask over a vocabulary. */
module ConstrainedDecoding {
  import opened JsonGrammar
  import opened JsonCompleteness
  import opened JsonSoundness
  import opened JsonTheorems
  import opened TokenMask

  predicate Acceptable(g: State, token: string) {
    !g.completed && !g.hasError && |token| > 0 && !Feed(g, token).hasError
  }

  /** The mask allows exactly the nonempty tokens the grammar accepts, among those the bitset can hold. */
  method ComputeMask(g: Automaton, vocab: seq<string>) returns (mask: TokenBitMask)
    requires g.Valid()
    ensures fresh(mask) && fresh(mask.words) && mask.Valid()
    ensures forall id :: 0 <= id < LIMIT ==> (Allowed(mask.words[..], id) <==> id < |vocab| && Acceptable(g.Abs(), vocab[id]))
  {
    mask := new TokenBitMask.AllowNone();
    for id := 0 to |vocab|
      invariant fresh(mask) && fresh(mask.words) && mask.Valid() && g.Valid() && g.Abs() == old(g.Abs())
      invariant forall j :: 0 <= j < LIMIT ==> (Allowed(mask.words[..], j) <==> j < id && Acceptable(g.Abs(), vocab[j]))
    {
      if |vocab[id]| > 0 {
        var ok := g.CanAccept(vocab[id]);
        if ok { mask.Allow(id); }
      }
    }
  }

  /** While the text is incomplete, the tokens let through are exactly those that begin some JSON text with it. */
  lemma AcceptableIffViable(text: string, token: string)
    requires !Run(INITIAL, text).hasError && !Run(INITIAL, text).completed && |token| > 0
    ensures Acceptable(Run(INITIAL, text), token) <==> exists rest :: CompletesWith(text + token, rest)
  {
    AcceptedIffViable(text, token);
  }
}
