/** The sampler: penalties, temperature, filters, softmax and the draw. */
module Sampler {
  import opened Vectors
  import opened Bits
  import opened TokenMask
  import opened Selection
  import opened LogitFilters
  import opened Nucleus

  datatype Config = Config(penalties: Penalties, temperature: real, minP: real, topK: nat, topP: real)

  /** The exponential and the logarithm, known by the laws the sampler needs. */
  datatype Functions = Functions(exp: real -> real, ln: real -> real)

  ghost predicate FunctionsOk(f: Functions) {
    Positive(f.exp) && forall p :: 0.0 < p < 1.0 ==> f.ln(p) < 0.0
  }

  lemma NarrowsChain(a: seq<Logit>, b: seq<Logit>, c: seq<Logit>)
    requires Narrows(a, b) && Narrows(b, c)
    ensures Narrows(a, c)
  {
  }

  lemma ScaledNarrows(logits: seq<Logit>, f: real)
    ensures Narrows(logits, AllScaled(logits, f))
  {
    if SomeFinite(logits) {
      var i :| 0 <= i < |logits| && logits[i].Fin?;
      assert AllScaled(logits, f)[i].Fin?;
    }
  }

  lemma NarrowsSelf(s: seq<Logit>)
    ensures Narrows(s, s)
  {
  }

  predicate PenaltiesOn(p: Penalties) {
    (p.repetition > 0.0 && p.repetition != 1.0) || p.presence != 0.0 || p.frequency != 0.0
  }

  /** The logits after the penalties, if any penalty is on and there are recent tokens. */
  function PenalizedBy(logits: seq<Logit>, recent: seq<nat>, p: Penalties): seq<Logit> {
    if |recent| > 0 && PenaltiesOn(p) then PenalizedAll(logits, recent, p) else logits
  }

  /** The switches only save work: penalties that are off leave everything as it is. */
  lemma PenaltiesAlways(logits: seq<Logit>, recent: seq<nat>, p: Penalties)
    ensures PenalizedBy(logits, recent, p) == PenalizedAll(logits, recent, p)
  {
    if !PenaltiesOn(p) {
      forall i | 0 <= i < |logits| ensures PenalizedAll(logits, recent, p)[i] == logits[i] {
        assert p.frequency * Count(recent, i) as real == 0.0;
      }
    }
  }

  method Penalize(logits: array<Logit>, recent: seq<nat>, p: Penalties)
    modifies logits
    ensures logits[..] == PenalizedBy(old(logits[..]), recent, p)
    ensures Narrows(old(logits[..]), logits[..])
  {
    NarrowsSelf(logits[..]);
    PenalizedNarrows(logits[..], recent, p);
    if |recent| > 0 && PenaltiesOn(p) {
      ApplyPenalties(logits, recent, p);
    }
  }

  /** The two floors: min-p's is set by the greatest scaled logit, top-k's is the last of the k greatest that min-p left.
      A filter that is off has its floor at minus infinity, where nothing is dropped. */
  ghost predicate Floors(scaled: seq<Logit>, c: Config, f: Functions, minFloor: Logit, topFloor: Logit) {
    && minFloor == (if 0.0 < c.minP < 1.0 then MinFloor(scaled, f.ln(c.minP)) else NegInf)
    && if 0 < c.topK < |scaled| then KthGreatest(AllKept(scaled, minFloor), c.topK, topFloor) else topFloor == NegInf
  }

  /** What the temperature and the two floors leave. */
  function Narrowed(logits: seq<Logit>, f: real, minFloor: Logit, topFloor: Logit): seq<Logit> {
    AllKept(AllKept(AllScaled(logits, f), minFloor), topFloor)
  }

  lemma KeepsAll(logits: seq<Logit>)
    ensures AllKept(logits, NegInf) == logits
  {
    forall i | 0 <= i < |logits| ensures AllKept(logits, NegInf)[i] == logits[i] {
      assert AtLeast(logits[i], NegInf);
    }
  }

  /** Temperature, min-p and top-k, each only if it is on. */
  method Narrow(logits: array<Logit>, c: Config, f: Functions) returns (ghost minFloor: Logit, ghost topFloor: Logit)
    requires FunctionsOk(f) && c.temperature > 0.0
    modifies logits
    ensures Floors(AllScaled(old(logits[..]), 1.0 / c.temperature), c, f, minFloor, topFloor)
    ensures logits[..] == Narrowed(old(logits[..]), 1.0 / c.temperature, minFloor, topFloor)
    ensures Narrows(old(logits[..]), logits[..])
  {
    ghost var start := logits[..];
    ApplyTemperature(logits, c.temperature);
    ScaledNarrows(start, 1.0 / c.temperature);
    minFloor := DropSmall(logits, c, f);
    ghost var kept := logits[..];
    NarrowsChain(start, AllScaled(start, 1.0 / c.temperature), kept);
    topFloor := KeepTop(logits, c);
    NarrowsChain(start, kept, logits[..]);
  }

  method DropSmall(logits: array<Logit>, c: Config, f: Functions) returns (ghost floor: Logit)
    requires FunctionsOk(f)
    modifies logits
    ensures floor == (if 0.0 < c.minP < 1.0 then MinFloor(old(logits[..]), f.ln(c.minP)) else NegInf)
    ensures logits[..] == AllKept(old(logits[..]), floor) && Narrows(old(logits[..]), logits[..])
  {
    floor := NegInf;
    KeepsAll(logits[..]);
    NarrowsSelf(logits[..]);
    if 0.0 < c.minP < 1.0 {
      floor := MinFloor(logits[..], f.ln(c.minP));
      ApplyMinP(logits, f.ln(c.minP));
    }
  }

  method KeepTop(logits: array<Logit>, c: Config) returns (ghost floor: Logit)
    modifies logits
    ensures if 0 < c.topK < logits.Length then KthGreatest(old(logits[..]), c.topK, floor) else floor == NegInf
    ensures logits[..] == AllKept(old(logits[..]), floor) && Narrows(old(logits[..]), logits[..])
  {
    floor := NegInf;
    KeepsAll(logits[..]);
    NarrowsSelf(logits[..]);
    if 0 < c.topK < logits.Length {
      ghost var order := ApplyTopK(logits, c.topK);
      floor := order[c.topK - 1].key;
    }
  }

  /** Whether the draw can only give a token of positive probability: all but a categorical draw of 0. */
  predicate Safe(c: Config, u: real) {
    c.temperature <= 0.0 || c.topP < 1.0 || u > 0.0
  }

  /** The token is drawn with u: from the nucleus below a topP of 1, else from everything. */
  ghost predicate Drawn(probs: seq<Logit>, topP: real, u: real, token: nat, nucleus: seq<Entry>) {
    if topP < 1.0 then
      && token < |probs| && ValueOf(probs[token]) > 0.0
      && FallsOn(nucleus, Times(u, Mass(nucleus)), token)
      && IsNucleus(nucleus, probs, topP) && Has(nucleus, token)
    else InShare(probs, u, token)
  }

  /** `sample`; u is the random number. Greedy at temperature 0, otherwise a draw from the softmax of what the penalties, the
      temperature and the two floors make of the logits. */
  method Sample(logits: array<Logit>, recent: seq<nat>, c: Config, f: Functions, u: real)
    returns (token: nat, ghost minFloor: Logit, ghost topFloor: Logit, ghost nucleus: seq<Entry>)
    requires FunctionsOk(f) && 0.0 <= u < 1.0
    modifies logits
    ensures var penalized := PenalizedBy(old(logits[..]), recent, c.penalties);
      if c.temperature <= 0.0 then logits[..] == penalized && IsArgmax(logits[..], token)
      else
        && Floors(AllScaled(penalized, 1.0 / c.temperature), c, f, minFloor, topFloor)
        && logits[..] == Probabilities(f.exp, Narrowed(penalized, 1.0 / c.temperature, minFloor, topFloor))
        && if logits.Length == 0 then token == 0 else Distribution(logits[..]) && Drawn(logits[..], c.topP, u, token, nucleus)
    ensures SomeFinite(old(logits[..])) ==> token < logits.Length && (Safe(c, u) ==> old(logits[token]).Fin?)
    ensures !Safe(c, u) ==> token == 0
  {
    ghost var start := logits[..];
    minFloor, topFloor, nucleus := NegInf, NegInf, [];
    Penalize(logits, recent, c.penalties);
    ghost var penalized := logits[..];
    if c.temperature <= 0.0 {
      token := Argmax(logits[..]);
      return;
    }
    minFloor, topFloor := Narrow(logits, c, f);
    NarrowsChain(start, penalized, logits[..]);
    token, nucleus := Pick(logits, c.topP, f, u);
  }

  /** Softmax and draw. With some finite logit, a safe draw gives a token whose logit was finite. */
  method Pick(logits: array<Logit>, topP: real, f: Functions, u: real) returns (token: nat, ghost nucleus: seq<Entry>)
    requires FunctionsOk(f) && 0.0 <= u < 1.0
    modifies logits
    ensures logits[..] == Probabilities(f.exp, old(logits[..]))
    ensures if logits.Length == 0 then token == 0 else Distribution(logits[..]) && Drawn(logits[..], topP, u, token, nucleus)
    ensures SomeFinite(old(logits[..])) ==> token < logits.Length && (topP < 1.0 || u > 0.0 ==> old(logits[token]).Fin?)
    ensures topP >= 1.0 && u == 0.0 ==> token == 0
  {
    nucleus := [];
    Softmax(logits, f.exp);
    if topP < 1.0 {
      token, nucleus := SampleTopP(logits[..], topP, u);
    } else {
      token := SampleCategorical(logits[..], u);
      if u == 0.0 { ZeroShare(logits[..], token); }
    }
  }

  lemma ZeroShare(probs: seq<Logit>, token: nat)
    requires |probs| > 0 ==> Distribution(probs) && InShare(probs, 0.0, token)
    requires |probs| == 0 ==> token == 0
    ensures token == 0
  {
    if token > 0 { SumNotNegative(probs[..token]); }
  }

  /** The logit is finite, and the token is allowed or out of the bitset's reach. */
  predicate Unmasked(words: seq<bv64>, logits: seq<Logit>, token: nat)
    requires |words| == BITMASK_WORDS
  {
    token < |logits| && logits[token].Fin? && (Allowed(words, token) || token >= LIMIT)
  }

  /** Masked sampling end to end: if some token is unmasked, the token returned is so if and only if the draw is safe or the first
      token is. */
  method SampleWithMask(mask: TokenBitMask, logits: array<Logit>, recent: seq<nat>, c: Config, f: Functions, u: real) returns (token: nat)
    requires mask.Valid() && mask.words as object != logits as object
    requires FunctionsOk(f) && 0.0 <= u < 1.0
    modifies logits
    ensures mask.words[..] == old(mask.words[..])
    ensures (exists i :: Unmasked(mask.words[..], old(logits[..]), i)) ==>
      (Unmasked(mask.words[..], old(logits[..]), token) <==> Safe(c, u) || Unmasked(mask.words[..], old(logits[..]), 0))
  {
    ghost var start, words := logits[..], mask.words[..];
    mask.ApplyToLogits(logits);
    ghost var masked := logits[..];
    MaskedFinite(words, start);
    ghost var minFloor, topFloor, nucleus;
    token, minFloor, topFloor, nucleus := Sample(logits, recent, c, f, u);
    if SomeFinite(masked) && Safe(c, u) {
      assert masked[token].Fin?;
    }
  }

  lemma MaskedFinite(words: seq<bv64>, logits: seq<Logit>)
    requires |words| == BITMASK_WORDS
    ensures forall i: nat :: i < |logits| ==> (Masked(logits, words)[i].Fin? <==> Unmasked(words, logits, i))
    ensures (exists i :: Unmasked(words, logits, i)) ==> SomeFinite(Masked(logits, words))
  {
    if i: nat :| Unmasked(words, logits, i) {
      assert Masked(logits, words)[i].Fin?;
    }
  }
}
