/** Attention over the cached rows in one pass: a running maximum, a running sum and a rescaled accumulator. */
module OnlineSoftmax {
  import opened Layout
  import opened Vectors
  import opened TokenMask
  import opened Selection

  /** The exponential, known by its laws. */
  ghost predicate ExpLaws(exp: real -> real) {
    && exp(0.0) == 1.0 && (forall x :: exp(x) > 0.0)
    && forall a, b :: exp(a + b) == Times(exp(a), exp(b))
  }

  // ---------- the two-pass form ----------

  /** The greatest of the first n scores. */
  function MaxScore(scores: seq<Logit>, n: nat): (m: Logit)
    requires n <= |scores|
  {
    if n == 0 then NegInf
    else
      var m := MaxScore(scores, n - 1);
      if AtLeast(m, scores[n - 1]) then m else scores[n - 1]
  }

  /** The weight of a score relative to the maximum m. */
  function Weight(exp: real -> real, s: Logit, m: real): real {
    match s
    case NegInf => 0.0
    case Fin(v) => exp(v - m)
  }

  function Total(exp: real -> real, scores: seq<Logit>, m: real, n: nat): real
    requires n <= |scores|
  {
    if n == 0 then 0.0 else Total(exp, scores, m, n - 1) + Weight(exp, scores[n - 1], m)
  }

  /** One coordinate of the weighted sum of the values. */
  function Mixed(exp: real -> real, scores: seq<Logit>, values: seq<Vec>, m: real, n: nat, j: nat): real
    requires n <= |scores| && n <= |values| && forall t :: 0 <= t < n ==> j < |values[t]|
  {
    if n == 0 then 0.0
    else Mixed(exp, scores, values, m, n - 1, j) + Times(Weight(exp, scores[n - 1], m), values[n - 1][j])
  }

  /** The softmax probability of one score: its weight relative to the maximum over their total. */
  function Probability(exp: real -> real, scores: seq<Logit>, m: real, n: nat, t: nat): real
    requires t < n <= |scores| && Total(exp, scores, m, n) > 0.0
  {
    Times(Weight(exp, scores[t], m), 1.0 / Total(exp, scores, m, n))
  }

  /** One coordinate of the sum of the first k values weighted by the probabilities over n scores. */
  function Expected(exp: real -> real, scores: seq<Logit>, values: seq<Vec>, m: real, n: nat, k: nat, j: nat): real
    requires k <= n <= |scores| && k <= |values| && Total(exp, scores, m, n) > 0.0 && forall t :: 0 <= t < k ==> j < |values[t]|
  {
    if k == 0 then 0.0
    else Expected(exp, scores, values, m, n, k - 1, j) + Times(Probability(exp, scores, m, n, k - 1), values[k - 1][j])
  }

  // ---------- products ----------

  lemma TimesAssociative(x: real, y: real, z: real)
    ensures Times(Times(x, y), z) == Times(Times(x, z), y)
  {
  }

  lemma TimesOne(x: real)
    ensures Times(x, 1.0) == x && Times(1.0, x) == x && Times(x, 0.0) == 0.0 && Times(0.0, x) == 0.0
  {
  }

  // ---------- changing the maximum ----------

  /** Weights relative to a new maximum are the old ones rescaled. */
  lemma Reweigh(exp: real -> real, s: Logit, m: real, k: real)
    requires ExpLaws(exp)
    ensures Weight(exp, s, k) == Times(Weight(exp, s, m), exp(m - k))
  {
    match s
    case NegInf => TimesOne(exp(m - k));
    case Fin(v) =>
      assert exp((v - m) + (m - k)) == Times(exp(v - m), exp(m - k));
      assert (v - m) + (m - k) == v - k;
  }

  lemma {:induction false} Retotal(exp: real -> real, scores: seq<Logit>, m: real, k: real, n: nat)
    requires ExpLaws(exp) && n <= |scores|
    ensures Total(exp, scores, k, n) == Times(Total(exp, scores, m, n), exp(m - k))
  {
    if n == 0 {
      TimesOne(exp(m - k));
    } else {
      Retotal(exp, scores, m, k, n - 1);
      Reweigh(exp, scores[n - 1], m, k);
      TimesAdd(Total(exp, scores, m, n - 1), Weight(exp, scores[n - 1], m), exp(m - k));
    }
  }

  lemma {:induction false} Remix(exp: real -> real, scores: seq<Logit>, values: seq<Vec>, m: real, k: real, n: nat, j: nat)
    requires ExpLaws(exp) && n <= |scores| && n <= |values| && forall t :: 0 <= t < n ==> j < |values[t]|
    ensures Mixed(exp, scores, values, k, n, j) == Times(Mixed(exp, scores, values, m, n, j), exp(m - k))
  {
    if n == 0 {
      TimesOne(exp(m - k));
    } else {
      var w, x, a := Weight(exp, scores[n - 1], m), values[n - 1][j], exp(m - k);
      var before := Mixed(exp, scores, values, m, n - 1, j);
      Remix(exp, scores, values, m, k, n - 1, j);
      Reweigh(exp, scores[n - 1], m, k);
      TimesAssociative(w, a, x);
      TimesAdd(before, Times(w, x), a);
    }
  }

  // ---------- the running state ----------

  /** After n scores: the maximum so far, and total and mixed values relative to it. */
  ghost predicate Running(exp: real -> real, scores: seq<Logit>, values: seq<Vec>, n: nat, max: Logit, sum: real, out: Vec) {
    && n <= |scores| && n <= |values| && (forall t :: 0 <= t < n ==> |out| <= |values[t]|)
    && max == MaxScore(scores, n)
    && match max
       case NegInf => sum == 0.0 && forall j :: 0 <= j < |out| ==> out[j] == 0.0
       case Fin(m) => sum == Total(exp, scores, m, n) && forall j :: 0 <= j < |out| ==> out[j] == Mixed(exp, scores, values, m, n, j)
  }

  lemma {:induction false} NothingFinite(exp: real -> real, scores: seq<Logit>, values: seq<Vec>, m: real, n: nat, j: nat)
    requires n <= |scores| && n <= |values| && (forall t :: 0 <= t < n ==> j < |values[t]|) && MaxScore(scores, n) == NegInf
    ensures Total(exp, scores, m, n) == 0.0 && Mixed(exp, scores, values, m, n, j) == 0.0
  {
    if n > 0 {
      NothingFinite(exp, scores, values, m, n - 1, j);
      TimesOne(values[n - 1][j]);
    }
  }

  /** A new greatest score: everything so far shrinks by alpha, the new value enters with weight one. */
  lemma NewMaximum(exp: real -> real, scores: seq<Logit>, values: seq<Vec>, n: nat, m: real, k: real, j: nat)
    requires ExpLaws(exp) && n < |scores| && n < |values| && (forall t :: 0 <= t <= n ==> j < |values[t]|) && scores[n] == Fin(k)
    ensures Total(exp, scores, k, n + 1) == Times(Total(exp, scores, m, n), exp(m - k)) + 1.0
    ensures Mixed(exp, scores, values, k, n + 1, j) == Times(Mixed(exp, scores, values, m, n, j), exp(m - k)) + values[n][j]
  {
    Retotal(exp, scores, m, k, n);
    Remix(exp, scores, values, m, k, n, j);
    assert k - k == 0.0;
    TimesOne(values[n][j]);
  }

  // ---------- one score ----------

  /** The slice of the output that belongs to one head. */
  ghost function Head(out: array<real>, start: nat, dim: nat): Vec
    requires start + dim <= out.Length
    reads out
  {
    out[start..start + dim]
  }

  /** b differs from a at most inside one head's slice. */
  predicate Elsewhere(a: Vec, b: Vec, start: nat, dim: nat) {
    |a| == |b| && forall i :: 0 <= i < |a| && !(start <= i < start + dim) ==> a[i] == b[i]
  }

  lemma ElsewhereChain(a: Vec, b: Vec, c: Vec, start: nat, dim: nat)
    requires Elsewhere(a, b, start, dim) && Elsewhere(b, c, start, dim)
    ensures Elsewhere(a, c, start, dim)
  {
  }

  /** out := out * alpha + beta * value, on one head's slice only. */
  method Accumulate(out: array<real>, start: nat, value: Vec, alpha: real, beta: real)
    requires start + |value| <= out.Length
    modifies out
    ensures forall i :: 0 <= i < out.Length ==>
      out[i] == if start <= i < start + |value| then Times(old(out[i]), alpha) + Times(beta, value[i - start]) else old(out[i])
  {
    for j := 0 to |value|
      invariant forall i :: 0 <= i < out.Length ==>
        out[i] == if start <= i < start + j then Times(old(out[i]), alpha) + Times(beta, value[i - start]) else old(out[i])
    {
      out[start + j] := Times(out[start + j], alpha) + Times(beta, value[j]);
    }
  }

  lemma NewCoordinate(exp: real -> real, scores: seq<Logit>, values: seq<Vec>, n: nat, max: Logit, was: real, k: real, alpha: real, j: nat)
    requires ExpLaws(exp) && n < |scores| && n < |values| && (forall t :: 0 <= t <= n ==> j < |values[t]|)
    requires scores[n] == Fin(k) && max == MaxScore(scores, n)
    requires was == if max.NegInf? then 0.0 else Mixed(exp, scores, values, max.value, n, j)
    requires alpha == if max.NegInf? then 0.0 else exp(max.value - k)
    ensures Times(was, alpha) + Times(1.0, values[n][j]) == Mixed(exp, scores, values, k, n + 1, j)
  {
    TimesOne(values[n][j]);
    TimesOne(was);
    if max.NegInf? {
      NothingFinite(exp, scores, values, k, n, j);
      assert k - k == 0.0;
    } else {
      NewMaximum(exp, scores, values, n, max.value, k, j);
    }
  }

  lemma AccumulatedNew(exp: real -> real, scores: seq<Logit>, values: seq<Vec>, n: nat, max: Logit, sum: real, was: Vec, k: real, alpha: real, now: Vec)
    requires ExpLaws(exp) && n < |scores| && n < |values| && scores[n] == Fin(k) && !AtLeast(max, scores[n])
    requires Running(exp, scores, values, n, max, sum, was) && |now| == |was| == |values[n]|
    requires alpha == if max.NegInf? then 0.0 else exp(max.value - k)
    requires forall j :: 0 <= j < |now| ==> now[j] == Times(was[j], alpha) + Times(1.0, values[n][j])
    ensures Running(exp, scores, values, n + 1, scores[n], Times(sum, alpha) + 1.0, now)
  {
    forall j | 0 <= j < |now| ensures now[j] == Mixed(exp, scores, values, k, n + 1, j) {
      NewCoordinate(exp, scores, values, n, max, was[j], k, alpha, j);
    }
    NewTotal(exp, scores, n, max, sum, k, alpha);
  }

  lemma {:induction false} NothingTotal(exp: real -> real, scores: seq<Logit>, m: real, n: nat)
    requires n <= |scores| && MaxScore(scores, n) == NegInf
    ensures Total(exp, scores, m, n) == 0.0
  {
    if n > 0 { NothingTotal(exp, scores, m, n - 1); }
  }

  lemma NewTotal(exp: real -> real, scores: seq<Logit>, n: nat, max: Logit, sum: real, k: real, alpha: real)
    requires ExpLaws(exp) && n < |scores| && scores[n] == Fin(k) && max == MaxScore(scores, n)
    requires sum == if max.NegInf? then 0.0 else Total(exp, scores, max.value, n)
    requires alpha == if max.NegInf? then 0.0 else exp(max.value - k)
    ensures Total(exp, scores, k, n + 1) == Times(sum, alpha) + 1.0
  {
    assert k - k == 0.0;
    TimesOne(sum);
    if max.NegInf? {
      NothingTotal(exp, scores, k, n);
    } else {
      Retotal(exp, scores, max.value, k, n);
    }
  }

  lemma AccumulatedMore(exp: real -> real, scores: seq<Logit>, values: seq<Vec>, n: nat, max: Logit, sum: real, was: Vec, beta: real, now: Vec)
    requires n < |scores| && n < |values| && scores[n].Fin? && AtLeast(max, scores[n])
    requires Running(exp, scores, values, n, max, sum, was) && |now| == |was| == |values[n]|
    requires beta == exp(scores[n].value - max.value)
    requires forall j :: 0 <= j < |now| ==> now[j] == Times(was[j], 1.0) + Times(beta, values[n][j])
    ensures Running(exp, scores, values, n + 1, max, sum + beta, now)
  {
    forall j | 0 <= j < |now| ensures now[j] == Mixed(exp, scores, values, max.value, n + 1, j) {
      TimesOne(was[j]);
    }
  }

  lemma AccumulatedNone(exp: real -> real, scores: seq<Logit>, values: seq<Vec>, n: nat, max: Logit, sum: real, out: Vec)
    requires n < |scores| && n < |values| && scores[n].NegInf? && |out| <= |values[n]| && Running(exp, scores, values, n, max, sum, out)
    ensures Running(exp, scores, values, n + 1, max, sum, out)
  {
    if max.Fin? {
      forall j | 0 <= j < |out| ensures out[j] == Mixed(exp, scores, values, max.value, n + 1, j) {
        TimesOne(values[n][j]);
      }
    }
  }

  /** One turn of the loop over the cached positions. */
  method OneScore(exp: real -> real, ghost scores: seq<Logit>, ghost values: seq<Vec>, ghost n: nat, score: Logit, value: Vec,
                  out: array<real>, start: nat, max: Logit, sum: real) returns (max1: Logit, sum1: real)
    requires ExpLaws(exp) && n < |scores| && n < |values| && score == scores[n] && value == values[n]
    requires start + |value| <= out.Length && Running(exp, scores, values, n, max, sum, Head(out, start, |value|))
    modifies out
    ensures Running(exp, scores, values, n + 1, max1, sum1, Head(out, start, |value|))
    ensures Elsewhere(old(out[..]), out[..], start, |value|)
  {
    ghost var was := Head(out, start, |value|);
    match score {
      case NegInf =>
        AccumulatedNone(exp, scores, values, n, max, sum, was);
        max1, sum1 := max, sum;
      case Fin(k) =>
        if !AtLeast(max, score) {
          var alpha := if max.NegInf? then 0.0 else exp(max.value - k);
          Accumulate(out, start, value, alpha, 1.0);
          AccumulatedNew(exp, scores, values, n, max, sum, was, k, alpha, Head(out, start, |value|));
          max1, sum1 := score, Times(sum, alpha) + 1.0;
        } else {
          var beta := exp(k - max.value);
          Accumulate(out, start, value, 1.0, beta);
          AccumulatedMore(exp, scores, values, n, max, sum, was, beta, Head(out, start, |value|));
          max1, sum1 := max, sum + beta;
        }
    }
  }

  // ---------- one head ----------

  /** What a head's output is meant to be: zero when no score is finite, else the values weighted by the softmax of the scores. */
  ghost predicate Attends(exp: real -> real, scores: seq<Logit>, values: seq<Vec>, n: nat, out: Vec) {
    && n <= |scores| && n <= |values| && (forall t :: 0 <= t < n ==> |out| <= |values[t]|)
    && match MaxScore(scores, n)
       case NegInf => forall j :: 0 <= j < |out| ==> out[j] == 0.0
       case Fin(m) =>
         (Total(exp, scores, m, n) > 0.0 && forall j :: 0 <= j < |out| ==> out[j] == Expected(exp, scores, values, m, n, n, j))
  }

  /** Some weight is one: the total is positive. */
  lemma {:induction false} TotalPositive(exp: real -> real, scores: seq<Logit>, m: real, n: nat)
    requires ExpLaws(exp) && n <= |scores| && MaxScore(scores, n).Fin?
    ensures Total(exp, scores, m, n) > 0.0
  {
    TotalNotNegative(exp, scores, m, n - 1);
    if scores[n - 1].NegInf? { TotalPositive(exp, scores, m, n - 1); }
  }

  lemma {:induction false} TotalNotNegative(exp: real -> real, scores: seq<Logit>, m: real, n: nat)
    requires ExpLaws(exp) && n <= |scores|
    ensures Total(exp, scores, m, n) >= 0.0
  {
    if n > 0 { TotalNotNegative(exp, scores, m, n - 1); }
  }

  /** Dividing the weighted sum by the total is weighing by the probabilities. */
  lemma {:induction false} MixedOverTotal(exp: real -> real, scores: seq<Logit>, values: seq<Vec>, m: real, n: nat, k: nat, j: nat, inverse: real)
    requires k <= n <= |scores| && k <= |values| && Total(exp, scores, m, n) > 0.0 && inverse == 1.0 / Total(exp, scores, m, n)
    requires forall t :: 0 <= t < k ==> j < |values[t]|
    ensures Times(Mixed(exp, scores, values, m, k, j), inverse) == Expected(exp, scores, values, m, n, k, j)
  {
    if k == 0 {
      TimesOne(inverse);
    } else {
      var w, x := Weight(exp, scores[k - 1], m), values[k - 1][j];
      var before := Mixed(exp, scores, values, m, k - 1, j);
      MixedOverTotal(exp, scores, values, m, n, k - 1, j, inverse);
      TimesAdd(before, Times(w, x), inverse);
      TimesAssociative(w, x, inverse);
    }
  }

  lemma Normalized(exp: real -> real, scores: seq<Logit>, values: seq<Vec>, n: nat, max: Logit, sum: real, was: Vec, inverse: real, now: Vec)
    requires ExpLaws(exp) && Running(exp, scores, values, n, max, sum, was) && |now| == |was| && max.Fin?
    requires sum > 0.0 && inverse == 1.0 / sum && forall j :: 0 <= j < |now| ==> now[j] == Times(was[j], inverse)
    ensures Attends(exp, scores, values, n, now)
  {
    forall j | 0 <= j < |now| ensures now[j] == Expected(exp, scores, values, max.value, n, n, j) {
      MixedOverTotal(exp, scores, values, max.value, n, n, j, inverse);
    }
  }

  lemma RunningSum(exp: real -> real, scores: seq<Logit>, values: seq<Vec>, n: nat, max: Logit, sum: real, out: Vec)
    requires ExpLaws(exp) && Running(exp, scores, values, n, max, sum, out)
    ensures sum > 0.0 <==> max.Fin?
  {
    if max.Fin? { TotalPositive(exp, scores, max.value, n); }
  }

  /** The division by the running sum, if it is positive. */
  method Finish(exp: real -> real, ghost scores: seq<Logit>, ghost values: seq<Vec>, ghost n: nat, max: Logit, sum: real,
                out: array<real>, start: nat, dim: nat)
    requires ExpLaws(exp) && start + dim <= out.Length && Running(exp, scores, values, n, max, sum, Head(out, start, dim))
    modifies out
    ensures Attends(exp, scores, values, n, Head(out, start, dim))
    ensures Elsewhere(old(out[..]), out[..], start, dim)
  {
    ghost var was := Head(out, start, dim);
    RunningSum(exp, scores, values, n, max, sum, was);
    if sum > 0.0 {
      var inverse := 1.0 / sum;
      for j := 0 to dim
        invariant forall i :: 0 <= i < out.Length ==>
          out[i] == if start <= i < start + j then Times(old(out[i]), inverse) else old(out[i])
      {
        out[start + j] := Times(out[start + j], inverse);
      }
      Normalized(exp, scores, values, n, max, sum, was, inverse, Head(out, start, dim));
    }
  }

  method Clear(out: array<real>, start: nat, dim: nat)
    requires start + dim <= out.Length
    modifies out
    ensures forall i :: 0 <= i < out.Length ==> out[i] == if start <= i < start + dim then 0.0 else old(out[i])
  {
    for j := 0 to dim
      invariant forall i :: 0 <= i < out.Length ==> out[i] == if start <= i < start + j then 0.0 else old(out[i])
    {
      out[start + j] := 0.0;
    }
  }

  /** The rows of one key or value head, for the first n positions. */
  function HeadRows(rows: seq<Vec>, first: nat, dim: nat, n: nat): (r: seq<Vec>)
    requires n <= |rows| && forall t :: 0 <= t < n ==> first + dim <= |rows[t]|
    ensures |r| == n && forall t :: 0 <= t < n ==> |r[t]| == dim
  {
    seq(n, t requires 0 <= t < n => rows[t][first..first + dim])
  }

  function Scores(q: Vec, keys: seq<Vec>, scale: real): (s: seq<Logit>)
    requires forall t :: 0 <= t < |keys| ==> |keys[t]| == |q|
    ensures |s| == |keys|
  {
    seq(|keys|, t requires 0 <= t < |keys| => ScoreOf(q, keys[t], scale))
  }

  /** One query head against the cached rows up to `pos`, and no further. */
  method AttendHead(exp: real -> real, q: Vec, keys: seq<Vec>, values: seq<Vec>, pos: nat, first: nat, scale: real, out: array<real>, start: nat)
    requires ExpLaws(exp) && pos < |keys| && pos < |values| && start + |q| <= out.Length
    requires forall t :: 0 <= t <= pos ==> first + |q| <= |keys[t]| && first + |q| <= |values[t]|
    modifies out
    ensures Attends(exp, Scores(q, HeadRows(keys, first, |q|, pos + 1), scale), HeadRows(values, first, |q|, pos + 1), pos + 1, Head(out, start, |q|))
    ensures Elsewhere(old(out[..]), out[..], start, |q|)
  {
    Clear(out, start, |q|);
    ghost var cleared := out[..];
    var max, sum := ScanPositions(exp, q, keys, values, pos + 1, first, scale, out, start);
    ghost var scanned := out[..];
    Finish(exp, Scores(q, HeadRows(keys, first, |q|, pos + 1), scale), HeadRows(values, first, |q|, pos + 1), pos + 1, max, sum, out, start, |q|);
    ElsewhereChain(cleared, scanned, out[..], start, |q|);
  }

  /** The single pass over the first n positions. */
  method ScanPositions(exp: real -> real, q: Vec, keys: seq<Vec>, values: seq<Vec>, n: nat, first: nat, scale: real, out: array<real>, start: nat)
    returns (max: Logit, sum: real)
    requires ExpLaws(exp) && n <= |keys| && n <= |values| && start + |q| <= out.Length
    requires forall t :: 0 <= t < n ==> first + |q| <= |keys[t]| && first + |q| <= |values[t]|
    requires forall i :: start <= i < start + |q| ==> out[i] == 0.0
    modifies out
    ensures Running(exp, Scores(q, HeadRows(keys, first, |q|, n), scale), HeadRows(values, first, |q|, n), n, max, sum, Head(out, start, |q|))
    ensures Elsewhere(old(out[..]), out[..], start, |q|)
  {
    ghost var dim, was := |q|, out[..];
    ghost var valueRows := HeadRows(values, first, dim, n);
    ghost var scores := Scores(q, HeadRows(keys, first, dim, n), scale);
    max, sum := NegInf, 0.0;
    assert forall j :: 0 <= j < dim ==> Head(out, start, dim)[j] == 0.0;
    for t := 0 to n
      invariant Running(exp, scores, valueRows, t, max, sum, Head(out, start, dim))
      invariant Elsewhere(was, out[..], start, dim)
    {
      var end := first + |q|;
      assert scores[t] == ScoreOf(q, keys[t][first..end], scale) && valueRows[t] == values[t][first..end];
      max, sum := OnePosition(exp, scores, valueRows, t, q, keys[t][first..end], values[t][first..end], scale, out, start, max, sum, was);
    }
  }

  method OnePosition(exp: real -> real, ghost scores: seq<Logit>, ghost values: seq<Vec>, ghost t: nat, q: Vec, key: Vec, value: Vec, scale: real,
      out: array<real>, start: nat, max: Logit, sum: real, ghost was: Vec)
    returns (newMax: Logit, newSum: real)
    requires ExpLaws(exp) && |key| == |q| == |value| && start + |q| <= out.Length && t < |scores| && t < |values|
    requires scores[t] == ScoreOf(q, key, scale) && values[t] == value
    requires Running(exp, scores, values, t, max, sum, Head(out, start, |q|)) && Elsewhere(was, out[..], start, |q|)
    modifies out
    ensures Running(exp, scores, values, t + 1, newMax, newSum, Head(out, start, |q|)) && Elsewhere(was, out[..], start, |q|)
  {
    ghost var before := out[..];
    newMax, newSum := OneScore(exp, scores, values, t, ScoreOf(q, key, scale), value, out, start, max, sum);
    ElsewhereChain(was, before, out[..], start, |q|);
  }

  function ScoreOf(q: Vec, key: Vec, scale: real): Logit
    requires |key| == |q|
  {
    Fin(Times(Dot(q, key), scale))
  }

  // ---------- all heads ----------

  /** The cached rows are wide enough for every key and value head. */
  predicate WideRows(rows: seq<Vec>, n: nat, width: nat) {
    n <= |rows| && forall t :: 0 <= t < n ==> width <= |rows[t]|
  }

  /** One layer's attention for one position: the query, the cached rows up to that position, and the grouping of heads. */
  datatype Job = Job(q: Vec, keys: seq<Vec>, values: seq<Vec>, n: nat, kvHeads: nat, group: nat, dim: nat, scale: real)

  predicate JobOk(job: Job) {
    && job.group > 0 && job.n > 0 && |job.q| == Span(Span(job.kvHeads, job.group), job.dim)
    && WideRows(job.keys, job.n, Span(job.kvHeads, job.dim)) && WideRows(job.values, job.n, Span(job.kvHeads, job.dim))
  }

  /** The slice of query head h holds the attention of that head over key and value head h / group. */
  ghost predicate HeadDone(exp: real -> real, job: Job, h: nat, out: Vec) {
    && job.group > 0 && Span(h + 1, job.dim) <= |job.q| && Span(h + 1, job.dim) <= |out|
    && HeadAttends(exp, job, Slice(job.q, h, job.dim), Span(h / job.group, job.dim), Slice(out, h, job.dim))
  }

  /** mine is the attention of the query over the parts of the cached rows that begin at cell `first`. */
  ghost predicate HeadAttends(exp: real -> real, job: Job, query: Vec, first: nat, mine: Vec) {
    && WideRows(job.keys, job.n, first + job.dim) && WideRows(job.values, job.n, first + job.dim) && |query| == job.dim
    && Attends(exp, Scores(query, HeadRows(job.keys, first, job.dim, job.n), job.scale), HeadRows(job.values, first, job.dim, job.n), job.n, mine)
  }

  lemma KvHeadBelow(h: nat, group: nat, kvHeads: nat)
    requires group > 0 && h < Span(kvHeads, group)
    ensures h / group < kvHeads
  {
    SpanFloor(h, group);
    if kvHeads <= h / group { SpanMono(kvHeads, h / group, group); }
  }

  /** The part of a vector that belongs to head h. */
  function Slice(q: Vec, h: nat, dim: nat): (r: Vec)
    requires Span(h + 1, dim) <= |q|
    ensures |r| == dim
  {
    q[Span(h, dim)..Span(h, dim) + dim]
  }

  /** Work on head h leaves the slices of the other heads alone. */
  lemma OtherHeads(exp: real -> real, job: Job, h: nat, k: nat, before: Vec, after: Vec)
    requires HeadDone(exp, job, k, before) && k < h && Elsewhere(before, after, Span(h, job.dim), job.dim)
    ensures HeadDone(exp, job, k, after)
  {
    SpanMono(k + 1, h, job.dim);
    assert Slice(after, k, job.dim) == Slice(before, k, job.dim);
  }

  /** Grouped-query attention: each head's slice of the output is its own attention over the rows up to the position. */
  method Attend(exp: real -> real, job: Job, heads: nat, out: array<real>)
    requires ExpLaws(exp) && JobOk(job) && heads == Span(job.kvHeads, job.group) && out.Length == |job.q|
    modifies out
    ensures forall h :: 0 <= h < heads ==> HeadDone(exp, job, h, out[..])
  {
    for h := 0 to heads
      invariant forall k :: 0 <= k < h ==> HeadDone(exp, job, k, out[..])
    {
      ghost var before := out[..];
      OneHead(exp, job, heads, out, h);
      forall k | 0 <= k < h ensures HeadDone(exp, job, k, out[..]) {
        OtherHeads(exp, job, h, k, before, out[..]);
      }
    }
  }

  method OneHead(exp: real -> real, job: Job, heads: nat, out: array<real>, h: nat)
    requires ExpLaws(exp) && JobOk(job) && heads == Span(job.kvHeads, job.group) && out.Length == |job.q| && h < heads
    modifies out
    ensures HeadDone(exp, job, h, out[..]) && Elsewhere(old(out[..]), out[..], Span(h, job.dim), job.dim)
  {
    SpanMono(h + 1, heads, job.dim);
    KvHeadBelow(h, job.group, job.kvHeads);
    SpanMono(h / job.group + 1, job.kvHeads, job.dim);
    var start, first := Span(h, job.dim), Span(h / job.group, job.dim);
    AttendHead(exp, Slice(job.q, h, job.dim), job.keys, job.values, job.n - 1, first, job.scale, out, start);
    assert Slice(out[..], h, job.dim) == Head(out, start, job.dim);
  }

  // ---------- in plain sums ----------

  /** The products of query head h with the key of head h / group at position t, coordinate by coordinate. */
  function Products(job: Job, h: nat, t: nat): nat -> real
    requires job.group > 0 && t < |job.keys|
  {
    (i: nat) => Times(Cell(job.q, Span(h, job.dim) + i), Cell(job.keys[t], Span(h / job.group, job.dim) + i))
  }

  /** The exponential of the scaled product, for each position. */
  function Exponentials(exp: real -> real, job: Job, h: nat): nat -> real
    requires job.group > 0
  {
    (t: nat) => if t < |job.keys| then exp(Times(SumOf(job.dim, Products(job, h, t)), job.scale)) else 0.0
  }

  /** That times coordinate j of the value of head h / group. */
  function WeightedValues(exp: real -> real, job: Job, h: nat, j: nat): nat -> real
    requires job.group > 0
  {
    (t: nat) => if t < |job.values| then Times(Exponentials(exp, job, h)(t), Cell(job.values[t], Span(h / job.group, job.dim) + j)) else 0.0
  }

  /** x times the sum of the weights is the sum of the weighted values. */
  ghost predicate IsAverage(exp: real -> real, job: Job, h: nat, j: nat, x: real) {
    job.group > 0 && Times(x, SumOf(job.n, Exponentials(exp, job, h))) == SumOf(job.n, WeightedValues(exp, job, h, j))
  }

  /** Every output cell is the average of the values of its key and value head, weighted by the exponentials of the scores of its
      query head over the positions of the cache. */
  lemma AttendIs(exp: real -> real, job: Job, out: Vec, h: nat, j: nat)
    requires ExpLaws(exp) && job.n > 0 && j < job.dim && HeadDone(exp, job, h, out)
    ensures IsAverage(exp, job, h, j, Cell(out, Span(h, job.dim) + j))
  {
    var query, mine, first := Slice(job.q, h, job.dim), Slice(out, h, job.dim), Span(h / job.group, job.dim);
    HeadSums(exp, job, h, j, first, query, mine);
    SliceCell(out, h, job.dim, j);
  }

  lemma SliceCell(v: Vec, h: nat, dim: nat, j: nat)
    requires Span(h + 1, dim) <= |v| && j < dim
    ensures Cell(v, Span(h, dim) + j) == Slice(v, h, dim)[j]
  {
  }

  lemma HeadSums(exp: real -> real, job: Job, h: nat, j: nat, first: nat, query: Vec, mine: Vec)
    requires ExpLaws(exp) && job.group > 0 && job.n > 0 && Span(h + 1, job.dim) <= |job.q| && j < job.dim == |mine| && first == Span(h / job.group, job.dim)
    requires query == Slice(job.q, h, job.dim) && HeadAttends(exp, job, query, first, mine)
    ensures IsAverage(exp, job, h, j, mine[j])
  {
    var keys, values := HeadRows(job.keys, first, job.dim, job.n), HeadRows(job.values, first, job.dim, job.n);
    var scores := Scores(query, keys, job.scale);
    HeadIs(exp, job, h, j, first, query, keys, values, scores);
    PlainHead(exp, scores, values, job.n, mine, j, Exponentials(exp, job, h), WeightedValues(exp, job, h, j));
  }

  /** f(t) and g(t) are the weight and the weighted value of score t. */
  predicate Plain(exp: real -> real, scores: seq<Logit>, values: seq<Vec>, j: nat, f: nat -> real, g: nat -> real, t: nat)
    requires t < |scores| && t < |values| && j < |values[t]|
  {
    scores[t].Fin? && f(t) == exp(scores[t].value) && g(t) == Times(exp(scores[t].value), values[t][j])
  }

  lemma HeadIs(exp: real -> real, job: Job, h: nat, j: nat, first: nat, q: Vec, keys: seq<Vec>, values: seq<Vec>, scores: seq<Logit>)
    requires job.group > 0 && Span(h + 1, job.dim) <= |job.q| && j < job.dim && first == Span(h / job.group, job.dim)
    requires WideRows(job.keys, job.n, first + job.dim) && WideRows(job.values, job.n, first + job.dim)
    requires q == Slice(job.q, h, job.dim) && keys == HeadRows(job.keys, first, job.dim, job.n)
    requires values == HeadRows(job.values, first, job.dim, job.n) && scores == Scores(q, keys, job.scale)
    ensures forall t: nat :: t < job.n ==> Plain(exp, scores, values, j, Exponentials(exp, job, h), WeightedValues(exp, job, h, j), t)
  {
    forall t: nat | t < job.n ensures Plain(exp, scores, values, j, Exponentials(exp, job, h), WeightedValues(exp, job, h, j), t) {
      ScoreIs(job, h, t, q, keys[t]);
      WeightedIs(exp, job, h, j, t, q, keys[t], values[t]);
    }
  }

  lemma ScoreIs(job: Job, h: nat, t: nat, q: Vec, key: Vec)
    requires job.group > 0 && t < |job.keys| && |q| == |key| == job.dim && Span(h, job.dim) + job.dim <= |job.q|
    requires Span(h / job.group, job.dim) + job.dim <= |job.keys[t]|
    requires q == job.q[Span(h, job.dim)..Span(h, job.dim) + job.dim]
    requires key == job.keys[t][Span(h / job.group, job.dim)..Span(h / job.group, job.dim) + job.dim]
    ensures ScoreOf(q, key, job.scale) == Fin(Times(SumOf(job.dim, Products(job, h, t)), job.scale))
  {
    var f, a, b := Products(job, h, t), Span(h, job.dim), Span(h / job.group, job.dim);
    forall i: nat | i < job.dim ensures f(i) == Times(q[i], key[i]) {
      assert f(i) == Times(Cell(job.q, a + i), Cell(job.keys[t], b + i));
      assert q[i] == job.q[a + i] == Cell(job.q, a + i);
      assert key[i] == job.keys[t][b + i] == Cell(job.keys[t], b + i);
    }
    DotToIsSum(q, key, job.dim, f);
  }

  lemma WeightedIs(exp: real -> real, job: Job, h: nat, j: nat, t: nat, q: Vec, key: Vec, value: Vec)
    requires job.group > 0 && t < |job.keys| && t < |job.values| && |q| == |key| && j < job.dim == |value|
    requires Span(h / job.group, job.dim) + job.dim <= |job.values[t]|
    requires value == job.values[t][Span(h / job.group, job.dim)..Span(h / job.group, job.dim) + job.dim]
    requires ScoreOf(q, key, job.scale) == Fin(Times(SumOf(job.dim, Products(job, h, t)), job.scale))
    ensures Exponentials(exp, job, h)(t) == exp(ScoreOf(q, key, job.scale).value)
    ensures WeightedValues(exp, job, h, j)(t) == Times(exp(ScoreOf(q, key, job.scale).value), value[j])
  {
  }

  lemma PlainHead(exp: real -> real, scores: seq<Logit>, values: seq<Vec>, n: nat, out: Vec, j: nat, f: nat -> real, g: nat -> real)
    requires ExpLaws(exp) && Attends(exp, scores, values, n, out) && j < |out| && n > 0 && forall t :: 0 <= t < n ==> j < |values[t]|
    requires forall t: nat :: t < n ==> Plain(exp, scores, values, j, f, g, t)
    ensures Times(out[j], SumOf(n, f)) == SumOf(n, g)
  {
    forall t: nat | t < n ensures scores[t].Fin? && f(t) == exp(scores[t].value) && g(t) == Times(exp(scores[t].value), values[t][j]) {
      assert Plain(exp, scores, values, j, f, g, t);
    }
    PlainRatio(exp, scores, values, n, out, j);
    TotalIsSum(exp, scores, n, f);
    MixedIsSum(exp, scores, values, n, j, g);
  }

  /** The maximum cancels out. */
  lemma PlainRatio(exp: real -> real, scores: seq<Logit>, values: seq<Vec>, n: nat, out: Vec, j: nat)
    requires ExpLaws(exp) && Attends(exp, scores, values, n, out) && j < |out| && n > 0 && forall t :: 0 <= t < n ==> scores[t].Fin?
    ensures Times(out[j], Total(exp, scores, 0.0, n)) == Mixed(exp, scores, values, 0.0, n, j)
  {
    FiniteMaximum(scores, n);
    var m := MaxScore(scores, n).value;
    var total, mixed := Total(exp, scores, m, n), Mixed(exp, scores, values, m, n, j);
    MixedOverTotal(exp, scores, values, m, n, n, j, 1.0 / total);
    Retotal(exp, scores, m, 0.0, n);
    Remix(exp, scores, values, m, 0.0, n, j);
    Cancel(mixed, total, exp(m - 0.0));
  }

  lemma Cancel(mixed: real, total: real, e: real)
    requires total > 0.0
    ensures Times(Times(mixed, 1.0 / total), Times(total, e)) == Times(mixed, e)
  {
    assert 1.0 / total * total == 1.0;
    assert mixed * (1.0 / total) * (total * e) == mixed * (1.0 / total * total) * e;
  }

  lemma {:induction false} FiniteMaximum(scores: seq<Logit>, n: nat)
    requires 0 < n <= |scores| && forall t :: 0 <= t < n ==> scores[t].Fin?
    ensures MaxScore(scores, n).Fin?
  {
    if n > 1 { FiniteMaximum(scores, n - 1); }
  }

  lemma {:induction false} TotalIsSum(exp: real -> real, scores: seq<Logit>, n: nat, f: nat -> real)
    requires n <= |scores| && forall t: nat :: t < n ==> scores[t].Fin? && f(t) == exp(scores[t].value)
    ensures Total(exp, scores, 0.0, n) == SumOf(n, f)
  {
    if n > 0 { TotalIsSum(exp, scores, n - 1, f); }
  }

  lemma {:induction false} MixedIsSum(exp: real -> real, scores: seq<Logit>, values: seq<Vec>, n: nat, j: nat, f: nat -> real)
    requires n <= |scores| && n <= |values| && forall t: nat :: t < n ==> j < |values[t]| && scores[t].Fin? && f(t) == Times(exp(scores[t].value), values[t][j])
    ensures Mixed(exp, scores, values, 0.0, n, j) == SumOf(n, f)
  {
    if n > 0 { MixedIsSum(exp, scores, values, n - 1, j, f); }
  }
}
