/** What happens to the logits before one is drawn. */
module LogitFilters {
  import opened TokenMask
  import opened Selection

  predicate SomeFinite(logits: seq<Logit>) {
    exists i :: 0 <= i < |logits| && logits[i].Fin?
  }

  /** now has at most was's finite entries, and still some if was had some. */
  predicate Narrows(was: seq<Logit>, now: seq<Logit>) {
    && |now| == |was|
    && (forall i :: 0 <= i < |was| && was[i].NegInf? ==> now[i].NegInf?)
    && (SomeFinite(was) ==> SomeFinite(now))
  }

  // ---------- penalties ----------

  datatype Penalties = Penalties(repetition: real, presence: real, frequency: real)

  function Count(recent: seq<nat>, t: nat): nat {
    if |recent| == 0 then 0 else Count(recent[..|recent| - 1], t) + if recent[|recent| - 1] == t then 1 else 0
  }

  /** The penalty on one logit whose token occurs `count` times. */
  function Penalized(l: Logit, p: Penalties, count: nat): Logit {
    match l
    case NegInf => NegInf
    case Fin(v) =>
      var repeated :=
        if p.repetition > 0.0 && p.repetition != 1.0 then (if v > 0.0 then v / p.repetition else v * p.repetition) else v;
      Fin(repeated - p.presence - p.frequency * count as real)
  }

  function PenalizedAll(logits: seq<Logit>, recent: seq<nat>, p: Penalties): (r: seq<Logit>)
    ensures |r| == |logits|
  {
    seq(|logits|, i requires 0 <= i < |logits| => if i in recent then Penalized(logits[i], p, Count(recent, i)) else logits[i])
  }

  method CountOf(recent: seq<nat>, t: nat) returns (count: nat)
    ensures count == Count(recent, t)
  {
    count := 0;
    for i := 0 to |recent|
      invariant count == Count(recent[..i], t)
    {
      assert recent[..i + 1][..i] == recent[..i];
      if recent[i] == t { count := count + 1; }
    }
    assert recent[..|recent|] == recent;
  }

  /** Every recent token is penalised once, by its number of occurrences. */
  method ApplyPenalties(logits: array<Logit>, recent: seq<nat>, p: Penalties)
    modifies logits
    ensures logits[..] == PenalizedAll(old(logits[..]), recent, p)
  {
    var seen: seq<nat> := [];
    ghost var was := logits[..];
    for i := 0 to |recent|
      invariant forall t :: t in seen <==> t in recent[..i] && t < logits.Length
      invariant forall t :: 0 <= t < logits.Length ==>
        logits[t] == if t in recent[..i] then Penalized(was[t], p, Count(recent, t)) else was[t]
    {
      var t := recent[i];
      assert recent[..i + 1] == recent[..i] + [t];
      if t < logits.Length && t !in seen {
        seen := seen + [t];
        var count := CountOf(recent, t);
        PenalizeOne(logits, t, p, count);
      }
    }
    assert recent[..|recent|] == recent;
  }

  /** The three penalties, each only if it is on. */
  method PenalizeOne(logits: array<Logit>, t: nat, p: Penalties, count: nat)
    requires t < logits.Length
    modifies logits
    ensures forall i :: 0 <= i < logits.Length ==>
      logits[i] == if i == t then Penalized(old(logits[t]), p, count) else old(logits[i])
  {
    if logits[t].Fin? {
      var v := logits[t].value;
      if p.repetition > 0.0 && p.repetition != 1.0 {
        v := if v > 0.0 then v / p.repetition else v * p.repetition;
      }
      if p.presence != 0.0 { v := v - p.presence; }
      if p.frequency != 0.0 { v := v - p.frequency * count as real; }
      logits[t] := Fin(v);
    }
  }

  lemma PenalizedNarrows(logits: seq<Logit>, recent: seq<nat>, p: Penalties)
    ensures Narrows(logits, PenalizedAll(logits, recent, p))
  {
    if SomeFinite(logits) {
      var i :| 0 <= i < |logits| && logits[i].Fin?;
      assert PenalizedAll(logits, recent, p)[i].Fin?;
    }
  }

  // ---------- greedy ----------

  /** The first greatest entry; 0 when there is none above minus infinity. */
  predicate IsArgmax(logits: seq<Logit>, best: nat) {
    if SomeFinite(logits) then
      && best < |logits| && logits[best].Fin?
      && (forall i :: 0 <= i < |logits| ==> AtLeast(logits[best], logits[i]))
      && (forall i :: 0 <= i < best ==> !AtLeast(logits[i], logits[best]))
    else best == 0
  }

  method Argmax(logits: seq<Logit>) returns (best: nat)
    ensures IsArgmax(logits, best)
  {
    best := 0;
    var max := NegInf;
    for i := 0 to |logits|
      invariant max.NegInf? ==> best == 0 && forall j :: 0 <= j < i ==> logits[j].NegInf?
      invariant max.Fin? ==> best < i && logits[best] == max
      invariant max.Fin? ==> forall j :: 0 <= j < i ==> AtLeast(max, logits[j])
      invariant max.Fin? ==> forall j :: 0 <= j < best ==> !AtLeast(logits[j], max)
    {
      if !AtLeast(max, logits[i]) {
        max, best := logits[i], i;
      }
    }
  }

  // ---------- temperature ----------

  function Scaled(l: Logit, f: real): Logit {
    match l
    case NegInf => NegInf
    case Fin(v) => Fin(v * f)
  }

  function AllScaled(logits: seq<Logit>, f: real): (r: seq<Logit>)
    ensures |r| == |logits|
  {
    seq(|logits|, i requires 0 <= i < |logits| => Scaled(logits[i], f))
  }

  /** Every logit times a factor. */
  method ScaleAll(logits: array<Logit>, f: real)
    modifies logits
    ensures logits[..] == AllScaled(old(logits[..]), f)
  {
    for i := 0 to logits.Length
      invariant forall j :: 0 <= j < logits.Length ==> logits[j] == if j < i then Scaled(old(logits[j]), f) else old(logits[j])
    {
      logits[i] := Scaled(logits[i], f);
    }
  }

  method ApplyTemperature(logits: array<Logit>, temperature: real)
    requires temperature > 0.0
    modifies logits
    ensures logits[..] == AllScaled(old(logits[..]), 1.0 / temperature)
  {
    ScaleAll(logits, 1.0 / temperature);
  }

  // ---------- min-p ----------

  /** Keeps what is at least the threshold. */
  function Kept(l: Logit, threshold: Logit): Logit {
    if AtLeast(l, threshold) then l else NegInf
  }

  function AllKept(logits: seq<Logit>, threshold: Logit): (r: seq<Logit>)
    ensures |r| == |logits|
  {
    seq(|logits|, i requires 0 <= i < |logits| => Kept(logits[i], threshold))
  }

  method DropBelow(logits: array<Logit>, threshold: Logit)
    modifies logits
    ensures logits[..] == AllKept(old(logits[..]), threshold)
  {
    for i := 0 to logits.Length
      invariant forall j :: 0 <= j < logits.Length ==> logits[j] == if j < i then Kept(old(logits[j]), threshold) else old(logits[j])
    {
      if !AtLeast(logits[i], threshold) { logits[i] := NegInf; }
    }
  }

  /** The greatest logit; minus infinity when none is finite. */
  function Greatest(logits: seq<Logit>): Logit {
    if |logits| == 0 then NegInf
    else
      var max, last := Greatest(logits[..|logits| - 1]), logits[|logits| - 1];
      if AtLeast(max, last) then max else last
  }

  lemma {:induction false} GreatestIs(logits: seq<Logit>)
    ensures Greatest(logits).NegInf? <==> !SomeFinite(logits)
    ensures forall i :: 0 <= i < |logits| ==> AtLeast(Greatest(logits), logits[i])
    ensures Greatest(logits).Fin? ==> Greatest(logits) in logits
  {
    if |logits| > 0 {
      var n := |logits| - 1;
      GreatestIs(logits[..n]);
      if Greatest(logits[..n]).Fin? {
        assert SomeFinite(logits[..n]);
        assert SomeFinite(logits);
      } else {
        assert forall i :: 0 <= i < n ==> logits[..n][i].NegInf?;
      }
      assert logits == logits[..n] + [logits[n]];
    }
  }

  method MaxLogit(logits: seq<Logit>) returns (max: Logit)
    ensures max == Greatest(logits)
  {
    max := NegInf;
    for i := 0 to |logits|
      invariant max == Greatest(logits[..i])
    {
      assert logits[..i + 1][..i] == logits[..i];
      if !AtLeast(max, logits[i]) { max := logits[i]; }
    }
    assert logits[..|logits|] == logits;
  }

  /** Where min-p cuts: the greatest logit plus the logarithm of min_p. */
  function MinFloor(logits: seq<Logit>, lnMinP: real): Logit {
    match Greatest(logits)
    case NegInf => NegInf
    case Fin(max) => Fin(max + lnMinP)
  }

  /** lnMinP is the logarithm of min_p, negative because min_p is below one. */
  method ApplyMinP(logits: array<Logit>, lnMinP: real)
    requires lnMinP < 0.0
    modifies logits
    ensures logits[..] == AllKept(old(logits[..]), MinFloor(old(logits[..]), lnMinP))
    ensures Narrows(old(logits[..]), logits[..])
  {
    ghost var was := logits[..];
    var max := MaxLogit(logits[..]);
    GreatestIs(was);
    if max.NegInf? {
      return;
    }
    DropBelow(logits, Fin(max.value + lnMinP));
    ghost var i :| 0 <= i < |was| && was[i] == max;
    assert logits[..][i].Fin?;
  }

  // ---------- top-k ----------

  function Entries(logits: seq<Logit>): (s: seq<Entry>)
    ensures |s| == |logits|
  {
    seq(|logits|, i requires 0 <= i < |logits| => Entry(i, logits[i]))
  }

  lemma {:induction false} EntriesOf(logits: seq<Logit>, t: seq<Entry>, i: nat)
    requires Permutes(Entries(logits), t) && i < |t|
    ensures t[i].index < |logits| && t[i].key == logits[t[i].index]
  {
    assert t[i] in multiset(t);
    assert t[i] in Entries(logits);
  }

  lemma EntryPlace(logits: seq<Logit>, t: seq<Entry>, i: nat) returns (k: nat)
    requires Permutes(Entries(logits), t) && i < |logits|
    ensures k < |t| && t[k] == Entry(i, logits[i])
  {
    assert Entries(logits)[i] in multiset(Entries(logits));
    assert Entries(logits)[i] in t;
    k :| 0 <= k < |t| && t[k] == Entry(i, logits[i]);
  }

  /** `order` lists all entries, the topK greatest first. */
  predicate TopFirst(logits: seq<Logit>, order: seq<Entry>, topK: nat) {
    0 < topK <= |logits| == |order| && Permutes(Entries(logits), order) && SplitAt(order, topK - 1)
  }

  ghost predicate KthGreatest(logits: seq<Logit>, k: nat, key: Logit) {
    exists order: seq<Entry> :: TopFirst(logits, order, k) && key == order[k - 1].key
  }

  /** `order` lists the entries with the top_k greatest first; they survive, and only what lies strictly below the last of them is dropped. */
  method ApplyTopK(logits: array<Logit>, topK: nat) returns (ghost order: seq<Entry>)
    requires 0 < topK < logits.Length
    modifies logits
    ensures TopFirst(old(logits[..]), order, topK)
    ensures logits[..] == AllKept(old(logits[..]), order[topK - 1].key)
    ensures Narrows(old(logits[..]), logits[..])
  {
    ghost var was := logits[..];
    var scratch := seq(logits.Length, i requires 0 <= i < logits.Length reads logits => Entry(i, logits[i]));
    assert scratch == Entries(was);
    scratch := SelectNth(scratch, topK - 1);
    DropBelow(logits, scratch[topK - 1].key);
    order := scratch;
    TopKNarrows(was, order, topK, logits[..]);
  }

  lemma TopKNarrows(was: seq<Logit>, order: seq<Entry>, topK: nat, now: seq<Logit>)
    requires TopFirst(was, order, topK) && now == AllKept(was, order[topK - 1].key)
    ensures Narrows(was, now)
  {
    if SomeFinite(was) {
      var i :| 0 <= i < |was| && was[i].Fin?;
      var k := EntryPlace(was, order, i);
      if k <= topK - 1 {
        assert AtLeast(order[k].key, order[topK - 1].key);
        assert now[i].Fin?;
      } else {
        EntriesOf(was, order, topK - 1);
        assert AtLeast(order[topK - 1].key, order[k].key);
        SelfAtLeast(order[topK - 1].key);
        assert now[order[topK - 1].index].Fin?;
      }
    }
  }

  // ---------- softmax ----------

  function ValueOf(l: Logit): real {
    if l.Fin? then l.value else 0.0
  }

  function Sum(s: seq<Logit>): real {
    if |s| == 0 then 0.0 else Sum(s[..|s| - 1]) + ValueOf(s[|s| - 1])
  }

  ghost predicate Positive(exp: real -> real) {
    forall x :: exp(x) > 0.0
  }

  /** The unnormalised weight of a logit. */
  function Unnormalised(exp: real -> real, l: Logit, max: real): Logit {
    match l
    case NegInf => Fin(0.0)
    case Fin(v) => Fin(exp(v - max))
  }

  function Weights(exp: real -> real, logits: seq<Logit>, max: real): (w: seq<Logit>)
    ensures |w| == |logits|
  {
    seq(|logits|, i requires 0 <= i < |logits| => Unnormalised(exp, logits[i], max))
  }

  /** Probabilities: finite, not negative, and summing to one. */
  predicate Distribution(probs: seq<Logit>) {
    (forall i :: 0 <= i < |probs| ==> probs[i].Fin? && probs[i].value >= 0.0) && Sum(probs) == 1.0
  }

  lemma {:induction false} SumScaled(s: seq<Logit>, t: seq<Logit>, f: real)
    requires |s| == |t| && forall i :: 0 <= i < |s| ==> ValueOf(t[i]) == ValueOf(s[i]) * f
    ensures Sum(t) == Sum(s) * f
  {
    if |s| > 0 {
      var n := |s| - 1;
      SumScaled(s[..n], t[..n], f);
      assert ValueOf(t[n]) == ValueOf(s[n]) * f;
    }
  }

  lemma {:induction false} SumPositive(s: seq<Logit>, k: nat)
    requires (forall i :: 0 <= i < |s| ==> ValueOf(s[i]) >= 0.0) && k < |s| && ValueOf(s[k]) > 0.0
    ensures Sum(s) > 0.0
  {
    var n := |s| - 1;
    if k < n { SumPositive(s[..n], k); } else { SumNotNegative(s[..n]); }
  }

  lemma {:induction false} SumNotNegative(s: seq<Logit>)
    requires forall i :: 0 <= i < |s| ==> ValueOf(s[i]) >= 0.0
    ensures Sum(s) >= 0.0
  {
    if |s| > 0 { SumNotNegative(s[..|s| - 1]); }
  }

  /** The first pass: exponentials and their sum. */
  method Exponentiate(logits: array<Logit>, exp: real -> real, max: real) returns (sum: real)
    modifies logits
    ensures logits[..] == Weights(exp, old(logits[..]), max) && sum == Sum(logits[..])
  {
    sum := 0.0;
    ghost var w := Weights(exp, logits[..], max);
    for i := 0 to logits.Length
      invariant sum == Sum(w[..i])
      invariant forall j :: 0 <= j < logits.Length ==> logits[j] == if j < i then w[j] else old(logits[j])
    {
      logits[i] := Unnormalised(exp, logits[i], max);
      assert w[..i + 1][..i] == w[..i];
      sum := sum + ValueOf(logits[i]);
    }
    assert w[..logits.Length] == w && logits[..] == w;
  }

  lemma ProductSign(x: real, f: real)
    requires f > 0.0
    ensures (x * f > 0.0 <==> x > 0.0) && (x >= 0.0 ==> x * f >= 0.0)
  {
  }

  predicate Weighs(w: Logit) {
    w.Fin? && w.value >= 0.0
  }

  /** Not negative, and positive exactly where the weight is. */
  predicate Normal(p: Logit, w: Logit) {
    Weighs(p) && (ValueOf(p) > 0.0 <==> ValueOf(w) > 0.0)
  }

  lemma ScaledNormal(w: Logit, f: real)
    requires Weighs(w) && f > 0.0
    ensures Normal(Scaled(w, f), w)
  {
    ProductSign(w.value, f);
  }

  lemma Inverse(sum: real)
    requires sum > 0.0
    ensures 1.0 / sum > 0.0 && sum * (1.0 / sum) == 1.0
  {
  }

  lemma NormalizedIsDistribution(w: seq<Logit>, f: real)
    requires f > 0.0 && Sum(w) * f == 1.0 && forall j :: 0 <= j < |w| ==> Weighs(w[j])
    ensures Distribution(AllScaled(w, f))
    ensures forall j :: 0 <= j < |w| ==> Normal(AllScaled(w, f)[j], w[j])
  {
    var p := AllScaled(w, f);
    forall j | 0 <= j < |w| ensures Normal(p[j], w[j]) && ValueOf(p[j]) == ValueOf(w[j]) * f {
      ScaledNormal(w[j], f);
    }
    SumScaled(w, p, f);
    forall j | 0 <= j < |p| ensures Weighs(p[j]) {
      assert Normal(p[j], w[j]);
    }
  }

  lemma WeightsPositive(exp: real -> real, logits: seq<Logit>, max: real)
    requires Positive(exp)
    ensures forall j :: 0 <= j < |logits| ==> Weighs(Weights(exp, logits, max)[j]) && (ValueOf(Weights(exp, logits, max)[j]) > 0.0 <==> logits[j].Fin?)
  {
  }

  function Uniform(n: nat): (p: seq<Logit>)
    requires n > 0
    ensures |p| == n
  {
    seq(n, _ => Fin(1.0 / n as real))
  }

  method FillUniform(logits: array<Logit>)
    requires logits.Length > 0
    modifies logits
    ensures logits[..] == Uniform(logits.Length)
  {
    var uniform := Fin(1.0 / logits.Length as real);
    for i := 0 to logits.Length
      invariant forall j :: 0 <= j < i ==> logits[j] == uniform
    {
      logits[i] := uniform;
    }
  }

  /** The softmax: each weight over the sum of the weights, or the uniform distribution when there is no weight. */
  function Probabilities(exp: real -> real, logits: seq<Logit>): (p: seq<Logit>)
    ensures |p| == |logits|
  {
    if |logits| == 0 then []
    else if Greatest(logits).NegInf? then Uniform(|logits|)
    else
      var w := Weights(exp, logits, Greatest(logits).value);
      if Sum(w) > 0.0 then AllScaled(w, 1.0 / Sum(w)) else Uniform(|logits|)
  }

  /** The slice becomes a distribution. It is zero exactly where the logit was minus infinity, unless all of them were: then it is uniform. */
  method Softmax(logits: array<Logit>, exp: real -> real)
    requires Positive(exp)
    modifies logits
    ensures logits[..] == Probabilities(exp, old(logits[..]))
    ensures logits.Length > 0 ==> Distribution(logits[..])
    ensures forall i :: 0 <= i < logits.Length ==>
      (ValueOf(logits[i]) > 0.0 <==> old(logits[i]).Fin? || !SomeFinite(old(logits[..])))
  {
    if logits.Length == 0 {
      return;
    }
    ProbabilitiesAre(exp, logits[..]);
    var max := MaxLogit(logits[..]);
    if max.NegInf? {
      FillUniform(logits);
      return;
    }
    var sum := Exponentiate(logits, exp, max.value);
    if sum > 0.0 {
      ScaleAll(logits, 1.0 / sum);
    } else {
      FillUniform(logits);
    }
  }

  lemma ProbabilitiesAre(exp: real -> real, logits: seq<Logit>)
    requires Positive(exp) && |logits| > 0
    ensures Distribution(Probabilities(exp, logits))
    ensures forall i :: 0 <= i < |logits| ==>
      (ValueOf(Probabilities(exp, logits)[i]) > 0.0 <==> logits[i].Fin? || !SomeFinite(logits))
  {
    GreatestIs(logits);
    if SomeFinite(logits) {
      WeightedDistribution(exp, logits, Greatest(logits).value);
    } else {
      UniformIsDistribution(|logits|);
    }
  }

  lemma WeightedDistribution(exp: real -> real, logits: seq<Logit>, max: real)
    requires Positive(exp) && Fin(max) in logits
    ensures var w := Weights(exp, logits, max);
      Sum(w) > 0.0 && Distribution(AllScaled(w, 1.0 / Sum(w)))
    ensures forall i :: 0 <= i < |logits| ==>
      (ValueOf(AllScaled(Weights(exp, logits, max), 1.0 / Sum(Weights(exp, logits, max)))[i]) > 0.0 <==> logits[i].Fin?)
  {
    var w := Weights(exp, logits, max);
    WeightsPositive(exp, logits, max);
    var k :| 0 <= k < |logits| && logits[k] == Fin(max);
    SumPositive(w, k);
    Inverse(Sum(w));
    NormalizedIsDistribution(w, 1.0 / Sum(w));
    SoftmaxSigns(logits, w, AllScaled(w, 1.0 / Sum(w)));
  }

  lemma SoftmaxSigns(was: seq<Logit>, w: seq<Logit>, p: seq<Logit>)
    requires |was| == |w| == |p|
    requires forall j :: 0 <= j < |w| ==> (ValueOf(w[j]) > 0.0 <==> was[j].Fin?)
    requires forall j :: 0 <= j < |w| ==> Normal(p[j], w[j])
    ensures forall j :: 0 <= j < |w| ==> (ValueOf(p[j]) > 0.0 <==> was[j].Fin?)
  {
    forall j | 0 <= j < |w| ensures ValueOf(p[j]) > 0.0 <==> was[j].Fin? {
      assert Normal(p[j], w[j]);
    }
  }

  lemma {:induction false} SumConstant(s: seq<Logit>, v: real)
    requires forall i :: 0 <= i < |s| ==> s[i] == Fin(v)
    ensures Sum(s) == |s| as real * v
  {
    if |s| > 0 { SumConstant(s[..|s| - 1], v); }
  }

  lemma UniformIsDistribution(n: nat)
    requires n > 0
    ensures Distribution(Uniform(n)) && forall i :: 0 <= i < n ==> ValueOf(Uniform(n)[i]) > 0.0
  {
    Inverse(n as real);
    SumConstant(Uniform(n), 1.0 / n as real);
  }
}
