/** The bitset of allowed tokens, 64 tokens to a word. */
module TokenMask {
  import opened Bits

  const BITMASK_WORDS: nat := 4096
  const LIMIT: nat := 262144

  /** A logit: a real number, or minus infinity. */
  datatype Logit = NegInf | Fin(value: real)

  // ---------- the mask ----------

  /** Token id is bit BitOf(id) of word WordOf(id). */
  function WordOf(id: nat): (k: nat)
    ensures 64 * k <= id < 64 * k + 64
  {
    if id < 64 then 0 else WordOf(id - 64) + 1
  }

  function BitOf(id: nat): (i: nat)
    ensures i < 64
  {
    id - 64 * WordOf(id)
  }

  method Split(id: nat) returns (word: nat, bit: nat)
    ensures word == WordOf(id) && bit == BitOf(id)
  {
    word, bit := id / 64, id % 64;
  }

  /** Whether the mask's words allow a token; ids beyond the bitset never are. */
  predicate Allowed(words: seq<bv64>, id: nat)
    requires |words| == BITMASK_WORDS
  {
    id < LIMIT && Bit(words[WordOf(id)], BitOf(id))
  }

  lemma AllowedSet(was: seq<bv64>, now: seq<bv64>, id: nat, j: nat)
    requires |was| == |now| == BITMASK_WORDS && id < LIMIT && j < LIMIT
    requires now[WordOf(id)] == SetAt(was[WordOf(id)], Pos(BitOf(id)))
    requires forall k :: 0 <= k < BITMASK_WORDS && k != WordOf(id) ==> now[k] == was[k]
    ensures Allowed(now, j) <==> (j == id || Allowed(was, j))
  {
    if WordOf(j) == WordOf(id) {
      SetBit(was[WordOf(id)], BitOf(id), BitOf(j));
    }
  }

  lemma AllowedCleared(was: seq<bv64>, now: seq<bv64>, id: nat, j: nat)
    requires |was| == |now| == BITMASK_WORDS && id < LIMIT && j < LIMIT
    requires now[WordOf(id)] == ClearAt(was[WordOf(id)], Pos(BitOf(id)))
    requires forall k :: 0 <= k < BITMASK_WORDS && k != WordOf(id) ==> now[k] == was[k]
    ensures Allowed(now, j) <==> (j != id && Allowed(was, j))
  {
    if WordOf(j) == WordOf(id) {
      ClearBit(was[WordOf(id)], BitOf(id), BitOf(j));
    }
  }

  class TokenBitMask {
    const words: array<bv64>

    ghost predicate Valid()
      reads words
    {
      words.Length == BITMASK_WORDS
    }

    constructor AllowAll()
      ensures Valid() && fresh(words) && forall id :: 0 <= id < LIMIT ==> Allowed(words[..], id)
    {
      words := new bv64[BITMASK_WORDS](_ => ALL);
      new;
      forall id | 0 <= id < LIMIT ensures Allowed(words[..], id) {
        ConstantBits(Pos(BitOf(id)));
      }
    }

    constructor AllowNone()
      ensures Valid() && fresh(words) && forall id :: 0 <= id < LIMIT ==> !Allowed(words[..], id)
    {
      words := new bv64[BITMASK_WORDS](_ => 0);
      new;
      forall id | 0 <= id < LIMIT ensures !Allowed(words[..], id) {
        ConstantBits(Pos(BitOf(id)));
      }
    }

    method Allow(id: nat)
      requires Valid()
      modifies words
      ensures Valid() && forall j :: 0 <= j < LIMIT ==> (Allowed(words[..], j) <==> (j == id || Allowed(old(words[..]), j)))
    {
      if id < LIMIT {
        ghost var was := words[..];
        var k, i := Split(id);
        words[k] := SetAt(words[k], Pos(i));
        forall j | 0 <= j < LIMIT ensures Allowed(words[..], j) <==> (j == id || Allowed(was, j)) {
          AllowedSet(was, words[..], id, j);
        }
      }
    }

    method Disallow(id: nat)
      requires Valid()
      modifies words
      ensures Valid() && forall j :: 0 <= j < LIMIT ==> (Allowed(words[..], j) <==> (j != id && Allowed(old(words[..]), j)))
    {
      if id < LIMIT {
        ghost var was := words[..];
        var k, i := Split(id);
        words[k] := ClearAt(words[k], Pos(i));
        forall j | 0 <= j < LIMIT ensures Allowed(words[..], j) <==> (j != id && Allowed(was, j)) {
          AllowedCleared(was, words[..], id, j);
        }
      }
    }

    method IsAllowed(id: nat) returns (ok: bool)
      requires Valid()
      ensures ok == Allowed(words[..], id)
    {
      if id >= LIMIT { return false; }
      var k, i := Split(id);
      TestBitAt(words[k], Pos(i));
      ok := TestAt(words[k], Pos(i));
    }

    /** Word by word; bit by lowest bit in a mixed word. */
    method ApplyToLogits(logits: array<Logit>)
      requires Valid() && words as object != logits as object
      modifies logits
      ensures logits[..] == Masked(old(logits[..]), words[..])
    {
      ghost var was := logits[..];
      var k, done := 0, false;
      while k < BITMASK_WORDS && !done
        invariant k <= BITMASK_WORDS && MaskedBelow(logits[..], was, words[..], 64 * k)
        invariant done ==> logits.Length <= 64 * k
        decreases BITMASK_WORDS - k, !done
      {
        if 64 * k >= logits.Length {
          done := true;
        } else {
          ApplyWord(k, logits, was);
          k := k + 1;
        }
      }
      MaskedAll(logits[..], was, words[..], 64 * k);
    }

    method ApplyWord(k: nat, logits: array<Logit>, ghost was: seq<Logit>)
      requires Valid() && words as object != logits as object && k < BITMASK_WORDS && 64 * k < logits.Length
      requires MaskedBelow(logits[..], was, words[..], 64 * k)
      modifies logits
      ensures MaskedBelow(logits[..], was, words[..], 64 * (k + 1))
    {
      var word := words[k];
      ghost var now := logits[..];
      if word == ALL {
        WordAllowed(words[..], k);
        MaskedWord(now, now, was, words[..], k);
      } else if word == 0 {
        FillBlock(logits, k);
        WordForbidden(words[..], k);
        MaskedWord(now, logits[..], was, words[..], k);
      } else {
        MaskBits(logits, k, word);
        MaskedWord(now, logits[..], was, words[..], k);
      }
    }
  }

  // ---------- applying the mask ----------

  function Masked(logits: seq<Logit>, words: seq<bv64>): (r: seq<Logit>)
    requires |words| == BITMASK_WORDS
    ensures |r| == |logits|
  {
    seq(|logits|, i requires 0 <= i < |logits| => if i < LIMIT && !Allowed(words, i) then NegInf else logits[i])
  }

  /** The mask one token at a time. */
  function PerToken(logits: seq<Logit>, words: seq<bv64>): (r: seq<Logit>)
    requires |words| == BITMASK_WORDS
    ensures |r| == |logits|
  {
    seq(|logits|, i requires 0 <= i < |logits| => if Allowed(words, i) then logits[i] else NegInf)
  }

  /** The word-skipping loops equal the per-token mask exactly when no logit beyond the bitset needs masking. */
  lemma MaskIsPerToken(logits: seq<Logit>, words: seq<bv64>)
    requires |words| == BITMASK_WORDS
    ensures Masked(logits, words) == PerToken(logits, words) <==> forall i :: LIMIT <= i < |logits| ==> logits[i] == NegInf
  {
    if Masked(logits, words) == PerToken(logits, words) {
      forall i | LIMIT <= i < |logits| ensures logits[i] == NegInf {
        assert Masked(logits, words)[i] == PerToken(logits, words)[i];
      }
    }
  }

  /** What token i's logit is once masked. */
  predicate IsMasked(now: seq<Logit>, was: seq<Logit>, words: seq<bv64>, i: nat)
    requires |words| == BITMASK_WORDS && i < |now| == |was|
  {
    now[i] == if i < LIMIT && !Allowed(words, i) then NegInf else was[i]
  }

  predicate MaskedBelow(now: seq<Logit>, was: seq<Logit>, words: seq<bv64>, n: nat)
    requires |words| == BITMASK_WORDS
  {
    && |now| == |was|
    && (forall i :: 0 <= i < |now| && i < n ==> IsMasked(now, was, words, i))
    && (forall i :: n <= i < |now| ==> now[i] == was[i])
  }

  lemma MaskedAll(now: seq<Logit>, was: seq<Logit>, words: seq<bv64>, n: nat)
    requires |words| == BITMASK_WORDS && MaskedBelow(now, was, words, n) && (|now| <= n || LIMIT <= n)
    ensures now == Masked(was, words)
  {
    forall i | 0 <= i < |now| ensures now[i] == Masked(was, words)[i] {
      if i < n { assert IsMasked(now, was, words, i); }
    }
  }

  /** Block k of `now` is block k of `before` with the bits of the word applied. */
  predicate BlockMasked(before: seq<Logit>, now: seq<Logit>, word: bv64, k: nat) {
    && |now| == |before|
    && (forall i :: 0 <= i < |now| && (i < 64 * k || 64 * k + 64 <= i) ==> now[i] == before[i])
    && (forall j :: 0 <= j < 64 && 64 * k + j < |now| ==> now[64 * k + j] == if Bit(word, j) then before[64 * k + j] else NegInf)
  }

  lemma WordBit(k: nat, j: nat)
    requires j < 64
    ensures WordOf(64 * k + j) == k && BitOf(64 * k + j) == j
  {
  }

  lemma MaskedWord(before: seq<Logit>, now: seq<Logit>, was: seq<Logit>, words: seq<bv64>, k: nat)
    requires |words| == BITMASK_WORDS && k < BITMASK_WORDS
    requires MaskedBelow(before, was, words, 64 * k) && BlockMasked(before, now, words[k], k)
    ensures MaskedBelow(now, was, words, 64 * (k + 1))
  {
    forall i | 0 <= i < |now| && i < 64 * (k + 1) ensures IsMasked(now, was, words, i) {
      if i < 64 * k {
        assert IsMasked(before, was, words, i);
      } else {
        var j := i - 64 * k;
        WordBit(k, j);
        assert now[64 * k + j] == if Bit(words[k], j) then before[64 * k + j] else NegInf;
      }
    }
  }

  lemma WordAllowed(words: seq<bv64>, k: nat)
    requires k < |words| && words[k] == ALL
    ensures forall j :: 0 <= j < 64 ==> Bit(words[k], j)
  {
    forall j | 0 <= j < 64 ensures Bit(words[k], j) { ConstantBits(Pos(j)); }
  }

  lemma WordForbidden(words: seq<bv64>, k: nat)
    requires k < |words| && words[k] == 0
    ensures forall j :: 0 <= j < 64 ==> !Bit(words[k], j)
  {
    forall j | 0 <= j < 64 ensures !Bit(words[k], j) { ConstantBits(Pos(j)); }
  }

  method FillBlock(logits: array<Logit>, k: nat)
    requires 64 * k < logits.Length
    modifies logits
    ensures forall i :: 0 <= i < logits.Length ==> logits[i] == if 64 * k <= i < 64 * k + 64 then NegInf else old(logits[i])
  {
    var end := if 64 * k + 64 <= logits.Length then 64 * k + 64 else logits.Length;
    for i := 64 * k to end
      invariant forall j :: 0 <= j < logits.Length ==> logits[j] == if 64 * k <= j < i then NegInf else old(logits[j])
    {
      logits[i] := NegInf;
    }
  }

  /** The bits of `left` are still to be handled: so far exactly the other zero bits of the word have been. */
  predicate BitsHandled(before: seq<Logit>, now: seq<Logit>, word: bv64, left: bv64, k: nat) {
    && |now| == |before|
    && (forall i :: 0 <= i < |now| && (i < 64 * k || 64 * k + 64 <= i) ==> now[i] == before[i])
    && (forall j :: 0 <= j < 64 && 64 * k + j < |now| ==>
         now[64 * k + j] == if Bit(word, j) || Bit(left, j) then before[64 * k + j] else NegInf)
    && (forall j :: 0 <= j < 64 ==> !(Bit(word, j) && Bit(left, j)))
  }

  lemma NothingHandled(before: seq<Logit>, word: bv64, k: nat)
    ensures BitsHandled(before, before, word, !word, k)
  {
    forall j | 0 <= j < 64 ensures Bit(!word, j) <==> !Bit(word, j) {
      InvertBitAt(word, Pos(j));
    }
  }

  lemma AllHandled(before: seq<Logit>, now: seq<Logit>, word: bv64, k: nat)
    requires BitsHandled(before, now, word, 0, k)
    ensures BlockMasked(before, now, word, k)
  {
    forall j | 0 <= j < 64 ensures !Bit(0, j) { ConstantBits(Pos(j)); }
  }

  /** Handling bit t: one logit changes, one bit leaves. */
  lemma OneHandled(before: seq<Logit>, now: seq<Logit>, after: seq<Logit>, word: bv64, left: bv64, rest: bv64, k: nat, t: nat)
    requires BitsHandled(before, now, word, left, k) && t < 64 && Bit(left, t) && |after| == |now|
    requires forall j :: 0 <= j < 64 ==> (Bit(rest, j) <==> (j != t && Bit(left, j)))
    requires forall i :: 0 <= i < |now| ==> after[i] == if i == 64 * k + t then NegInf else now[i]
    ensures BitsHandled(before, after, word, rest, k)
  {
  }

  method MaskBits(logits: array<Logit>, k: nat, word: bv64)
    modifies logits
    ensures BlockMasked(old(logits[..]), logits[..], word, k)
  {
    ghost var before := logits[..];
    var inverted := !word;
    NothingHandled(before, word, k);
    while inverted != 0
      invariant BitsHandled(before, logits[..], word, inverted, k)
      decreases BitCount(inverted, 64)
    {
      inverted := MaskLowest(logits, k, word, inverted, before);
    }
    AllHandled(before, logits[..], word, k);
  }

  /** The lowest bit's token, unless it lies beyond the logits; then the bit is cleared. */
  method MaskLowest(logits: array<Logit>, k: nat, ghost word: bv64, inverted: bv64, ghost before: seq<Logit>) returns (rest: bv64)
    requires inverted != 0 && BitsHandled(before, logits[..], word, inverted, k)
    modifies logits
    ensures BitsHandled(before, logits[..], word, rest, k)
    ensures BitCount(rest, 64) < BitCount(inverted, 64)
  {
    var bit := TrailingZeros(inverted);
    ghost var now, t := logits[..], bit as nat;
    CounterTrip(bit, t);
    if 64 * k + bit as nat < logits.Length {
      logits[64 * k + bit as nat] := NegInf;
    }
    rest := inverted & (inverted - 1);
    LowestGone(inverted, rest, bit, t);
    OneHandled(before, now, logits[..], word, inverted, rest, k, t);
    FewerBits(inverted, rest, t, 64);
  }

  lemma LowestGone(w: bv64, rest: bv64, bit: bv7, t: nat)
    requires w != 0 && bit < 64 && BitAt(w, Wide(bit)) && LowZero(w, Wide(bit)) && rest == w & (w - 1) && t < 64 && Pos(t) == Wide(bit)
    ensures Bit(w, t) && forall j :: 0 <= j < 64 ==> (Bit(rest, j) <==> (j != t && Bit(w, j)))
  {
    forall j | 0 <= j < 64 ensures Bit(rest, j) <==> (j != t && Bit(w, j)) {
      ClearLowest(w, Wide(bit), Pos(j));
      PosDistinct(t, j);
    }
  }

  function BitCount(w: bv64, n: nat): nat
    requires n <= 64
  {
    if n == 0 then 0 else BitCount(w, n - 1) + if Bit(w, n - 1) then 1 else 0
  }

  lemma {:induction false} FewerBits(w: bv64, rest: bv64, t: nat, n: nat)
    requires n <= 64 && t < 64 && Bit(w, t)
    requires forall j :: 0 <= j < 64 ==> (Bit(rest, j) <==> (j != t && Bit(w, j)))
    ensures BitCount(rest, n) == BitCount(w, n) - if t < n then 1 else 0
  {
    if n > 0 { FewerBits(w, rest, t, n - 1); }
  }
}
