/** What the logit filters mean, each in its own terms. */
module LogitLaws {
  import opened Vectors
  import opened TokenMask
  import opened Selection
  import opened LogitFilters
  import OnlineSoftmax

  // ---------- penalties ----------

  lemma {:induction false} CountIs(recent: seq<nat>, t: nat)
    ensures Count(recent, t) == multiset(recent)[t]
  {
    if |recent| > 0 {
      var n := |recent| - 1;
      CountIs(recent[..n], t);
      assert recent == recent[..n] + [recent[n]];
    }
  }

  /** The repetition penalty divides a positive logit and multiplies the others; presence is subtracted once, frequency for every
      occurrence. */
  lemma PenalizedIs(v: real, p: Penalties, count: nat)
    ensures Penalized(Fin(v), p, count).Fin?
    ensures var left := Penalized(Fin(v), p, count).value + p.presence + p.frequency * count as real;
      if p.repetition <= 0.0 then left == v
      else if v > 0.0 then left * p.repetition == v
      else left == v * p.repetition
  {
  }

  /** No penalty at or above its neutral value raises a logit. */
  lemma PenaltyLowers(v: real, p: Penalties, count: nat)
    requires p.repetition >= 1.0 && p.presence >= 0.0 && p.frequency >= 0.0
    ensures Penalized(Fin(v), p, count).value <= v
  {
    PenalizedIs(v, p, count);
    var left := Penalized(Fin(v), p, count).value + p.presence + p.frequency * count as real;
    assert p.frequency * count as real >= 0.0;
    if v > 0.0 { Divided(left, p.repetition, v); } else { Multiplied(v, p.repetition); }
  }

  lemma Divided(x: real, r: real, v: real)
    requires r >= 1.0 && v > 0.0 && x * r == v
    ensures x <= v
  {
    assert x > 0.0;
    assert x * r - x == x * (r - 1.0);
  }

  lemma Multiplied(v: real, r: real)
    requires r >= 1.0 && v <= 0.0
    ensures v * r <= v
  {
    assert v * r - v == v * (r - 1.0);
  }

  // ---------- temperature and min-p ----------

  /** Scaling by 1 / temperature divides by the temperature, and keeps minus infinity. */
  lemma ScaledIs(logits: seq<Logit>, temperature: real, i: nat)
    requires temperature > 0.0 && i < |logits|
    ensures var r := AllScaled(logits, 1.0 / temperature)[i];
      r.Fin? == logits[i].Fin? && (r.Fin? ==> r.value * temperature == logits[i].value)
  {
    if logits[i].Fin? {
      var v := logits[i].value;
      assert v * (1.0 / temperature) * temperature == v * (1.0 / temperature * temperature);
    }
  }

  /** Min-p keeps a logit exactly when no finite one exceeds it by more than -ln p. */
  lemma MinPKeeps(logits: seq<Logit>, lnMinP: real, i: nat)
    requires i < |logits| && logits[i].Fin?
    ensures var r := AllKept(logits, MinFloor(logits, lnMinP))[i];
      if forall j :: 0 <= j < |logits| && logits[j].Fin? ==> logits[i].value >= logits[j].value + lnMinP then r == logits[i] else r.NegInf?
  {
    GreatestIs(logits);
    assert SomeFinite(logits);
    var max := Greatest(logits);
    var k :| 0 <= k < |logits| && logits[k] == max;
    forall j | 0 <= j < |logits| && logits[j].Fin? ensures logits[j].value <= max.value {
      assert AtLeast(max, logits[j]);
    }
  }

  // ---------- softmax ----------

  /** The exponential of each logit, zero for minus infinity. */
  function Exponentials(exp: real -> real, logits: seq<Logit>): nat -> real {
    (i: nat) => if i < |logits| && logits[i].Fin? then exp(logits[i].value) else 0.0
  }

  lemma WeightIs(exp: real -> real, l: Logit, max: real)
    requires OnlineSoftmax.ExpLaws(exp)
    ensures Times(ValueOf(Unnormalised(exp, l, max)), exp(max)) == if l.Fin? then exp(l.value) else 0.0
  {
    if l.Fin? {
      assert exp((l.value - max) + max) == Times(exp(l.value - max), exp(max));
      assert (l.value - max) + max == l.value;
    }
  }

  lemma {:induction false} WeightsSum(exp: real -> real, logits: seq<Logit>, w: seq<Logit>, max: real, n: nat)
    requires OnlineSoftmax.ExpLaws(exp) && n <= |logits| == |w|
    requires forall i: nat :: i < |w| ==> Times(ValueOf(w[i]), exp(max)) == Exponentials(exp, logits)(i)
    ensures Times(Sum(w[..n]), exp(max)) == SumOf(n, Exponentials(exp, logits))
  {
    if n > 0 {
      var last := n - 1;
      WeightsSum(exp, logits, w, max, last);
      SumSlice(w, last, n);
      var before, cell, e, f := Sum(w[..last]), ValueOf(w[last]), exp(max), Exponentials(exp, logits);
      TimesAdd(before, cell, e);
      assert SumOf(n, f) == SumOf(last, f) + f(last);
    }
  }

  lemma SumSlice(w: seq<Logit>, last: nat, n: nat)
    requires n == last + 1 <= |w|
    ensures Sum(w[..n]) == Sum(w[..last]) + ValueOf(w[last])
  {
    assert w[..n][..last] == w[..last];
  }

  lemma AllWeights(exp: real -> real, logits: seq<Logit>, w: seq<Logit>, max: real)
    requires OnlineSoftmax.ExpLaws(exp) && w == Weights(exp, logits, max)
    ensures forall i: nat :: i < |w| ==> Times(ValueOf(w[i]), exp(max)) == Exponentials(exp, logits)(i)
    ensures Times(Sum(w), exp(max)) == SumOf(|logits|, Exponentials(exp, logits))
  {
    forall i: nat | i < |w| ensures Times(ValueOf(w[i]), exp(max)) == Exponentials(exp, logits)(i) {
      WeightIs(exp, logits[i], max);
    }
    WeightsSum(exp, logits, w, max, |logits|);
    assert w[..|logits|] == w;
  }

  lemma ScaledCell(w: seq<Logit>, f: real, i: nat)
    requires i < |w| && w[i].Fin?
    ensures ValueOf(AllScaled(w, f)[i]) == Times(ValueOf(w[i]), f)
  {
  }

  lemma ProbabilitiesFold(exp: real -> real, logits: seq<Logit>, w: seq<Logit>)
    requires |logits| > 0 && Greatest(logits).Fin? && w == Weights(exp, logits, Greatest(logits).value) && Sum(w) > 0.0
    ensures Probabilities(exp, logits) == AllScaled(w, 1.0 / Sum(w))
  {
  }

  lemma SumIsPositive(exp: real -> real, logits: seq<Logit>, max: real)
    requires OnlineSoftmax.ExpLaws(exp) && Fin(max) in logits
    ensures Sum(Weights(exp, logits, max)) > 0.0
  {
    WeightedDistribution(exp, logits, max);
  }

  /** A probability times the sum of all exponentials is the logit's own exponential: the shift by the maximum cancels out. */
  lemma SoftmaxIs(exp: real -> real, logits: seq<Logit>, i: nat)
    requires OnlineSoftmax.ExpLaws(exp) && SomeFinite(logits) && i < |logits|
    ensures Times(ValueOf(Probabilities(exp, logits)[i]), SumOf(|logits|, Exponentials(exp, logits))) == Exponentials(exp, logits)(i)
  {
    GreatestIs(logits);
    var max := Greatest(logits).value;
    var w := Weights(exp, logits, max);
    SumIsPositive(exp, logits, max);
    ProbabilitiesFold(exp, logits, w);
    ScaledCell(w, 1.0 / Sum(w), i);
    AllWeights(exp, logits, w, max);
    OnlineSoftmax.Cancel(ValueOf(w[i]), Sum(w), exp(max));
  }
}
