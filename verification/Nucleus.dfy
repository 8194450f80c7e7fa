/** Top-p sampling: a filter, a partial sort and a growing window find the same nucleus as a full sort. */
module Nucleus {
  import Common
  import opened Vectors
  import opened TokenMask
  import opened Selection
  import opened LogitFilters

  // ---------- the nucleus ----------

  function Mass(s: seq<Entry>): real {
    if |s| == 0 then 0.0 else Mass(s[..|s| - 1]) + ValueOf(s[|s| - 1].key)
  }

  /** The entries of distinct tokens with their probabilities. */
  ghost predicate EntriesOfProbs(s: seq<Entry>, probs: seq<Logit>) {
    && (forall i :: 0 <= i < |s| ==> s[i].index < |probs| && s[i].key == probs[s[i].index])
    && (forall e :: multiset(s)[e] <= 1)
  }

  predicate Has(s: seq<Entry>, token: nat) {
    exists i :: 0 <= i < |s| && s[i].index == token
  }

  /** A beginning of the tokens in descending order of probability: sorted, and nothing left out beats its last entry. */
  ghost predicate TopPrefix(s: seq<Entry>, probs: seq<Logit>) {
    && EntriesOfProbs(s, probs) && Descending(s)
    && forall t :: 0 <= t < |probs| && !Has(s, t) ==> forall i :: 0 <= i < |s| ==> AtLeast(s[i].key, probs[t])
  }

  /** The smallest such beginning, of at least one token, with probability mass at least topP. */
  ghost predicate IsNucleus(s: seq<Entry>, probs: seq<Logit>, topP: real) {
    |s| > 0 && TopPrefix(s, probs) && Mass(s) >= topP && (|s| > 1 ==> Mass(s[..|s| - 1]) < topP)
  }

  // ---------- the filter ----------

  predicate Passes(p: Logit, cutoff: real) {
    p.Fin? && p.value >= cutoff && p.value > 0.0
  }

  /** The entries that pass, in token order. */
  function Filtered(probs: seq<Logit>, cutoff: real): seq<Entry> {
    if |probs| == 0 then []
    else
      var n := |probs| - 1;
      Filtered(probs[..n], cutoff) + if Passes(probs[n], cutoff) then [Entry(n, probs[n])] else []
  }

  method Filter(probs: seq<Logit>, cutoff: real) returns (scratch: seq<Entry>)
    ensures scratch == Filtered(probs, cutoff)
  {
    scratch := [];
    for i := 0 to |probs|
      invariant scratch == Filtered(probs[..i], cutoff)
    {
      assert probs[..i + 1][..i] == probs[..i];
      if Passes(probs[i], cutoff) { scratch := scratch + [Entry(i, probs[i])]; }
    }
    assert probs[..|probs|] == probs;
  }

  lemma {:induction false} FilteredEntries(probs: seq<Logit>, cutoff: real, i: nat)
    requires i < |Filtered(probs, cutoff)|
    ensures var e := Filtered(probs, cutoff)[i];
      e.index < |probs| && e.key == probs[e.index] && Passes(e.key, cutoff)
  {
    var n := |probs| - 1;
    if i < |Filtered(probs[..n], cutoff)| { FilteredEntries(probs[..n], cutoff, i); }
  }

  lemma {:induction false} FilteredOnce(probs: seq<Logit>, cutoff: real, e: Entry)
    ensures multiset(Filtered(probs, cutoff))[e] <= 1
    ensures e in Filtered(probs, cutoff) ==> e.index < |probs|
  {
    if |probs| > 0 {
      var n := |probs| - 1;
      FilteredOnce(probs[..n], cutoff, e);
      FilteredOnce(probs[..n], cutoff, Entry(n, probs[n]));
    }
  }

  lemma {:induction false} FilteredHas(probs: seq<Logit>, cutoff: real, t: nat)
    requires t < |probs| && Passes(probs[t], cutoff)
    ensures Entry(t, probs[t]) in Filtered(probs, cutoff)
  {
    var n := |probs| - 1;
    if t < n { FilteredHas(probs[..n], cutoff, t); }
  }

  // ---------- the filter keeps enough mass ----------

  function Dropped(probs: seq<Logit>, cutoff: real): nat {
    if |probs| == 0 then 0
    else Dropped(probs[..|probs| - 1], cutoff) + if Passes(probs[|probs| - 1], cutoff) then 0 else 1
  }

  function Copies(n: nat, c: real): real {
    if n == 0 then 0.0 else Copies(n - 1, c) + c
  }

  lemma {:induction false} CopiesTimes(n: nat, c: real)
    ensures Copies(n, c) == n as real * c
  {
    if n > 0 {
      CopiesTimes(n - 1, c);
      assert n as real * c == (n - 1) as real * c + c;
    }
  }

  lemma {:induction false} CopiesMono(m: nat, n: nat, c: real)
    requires m <= n && c >= 0.0
    ensures Copies(m, c) <= Copies(n, c)
  {
    if m < n { CopiesMono(m, n - 1, c); }
  }

  predicate NotNegative(probs: seq<Logit>) {
    forall i :: 0 <= i < |probs| ==> probs[i].Fin? && probs[i].value >= 0.0
  }

  /** Everything dropped weighs at most the cutoff apiece. */
  lemma {:induction false} DroppedMass(probs: seq<Logit>, cutoff: real)
    requires NotNegative(probs) && cutoff >= 0.0
    ensures Mass(Filtered(probs, cutoff)) + Copies(Dropped(probs, cutoff), cutoff) >= Sum(probs)
    ensures Dropped(probs, cutoff) + |Filtered(probs, cutoff)| == |probs|
  {
    if |probs| > 0 {
      var n := |probs| - 1;
      var init := Filtered(probs[..n], cutoff);
      DroppedMass(probs[..n], cutoff);
      if Passes(probs[n], cutoff) {
        assert (init + [Entry(n, probs[n])])[..|init|] == init;
      } else {
        assert init + [] == init;
      }
    }
  }

  /** The source's cutoff: with n - 1 entries dropped at most 1 - topP of the mass is gone. */
  function Cutoff(n: nat, topP: real): real {
    if n > 1 && topP < 1.0 then (1.0 - topP) / (n as real - 1.0) else 0.0
  }

  lemma CutoffCopies(n: nat, topP: real)
    requires n > 1 && topP < 1.0
    ensures Cutoff(n, topP) > 0.0 && Copies(n - 1, Cutoff(n, topP)) == 1.0 - topP
  {
    var m, c := n as real - 1.0, Cutoff(n, topP);
    CopiesTimes(n - 1, c);
    assert (n - 1) as real == m;
    Quotient(1.0 - topP, m);
  }

  lemma Quotient(x: real, m: real)
    requires m > 0.0 && x > 0.0
    ensures x / m > 0.0 && m * (x / m) == x
  {
  }

  lemma FilteredMass(probs: seq<Logit>, topP: real)
    requires Distribution(probs) && topP < 1.0 && |Filtered(probs, Cutoff(|probs|, topP))| > 0
    ensures Mass(Filtered(probs, Cutoff(|probs|, topP))) >= topP
  {
    var n, c := |probs|, Cutoff(|probs|, topP);
    if n > 1 {
      CutoffCopies(n, topP);
      DroppedMass(probs, c);
      CopiesMono(Dropped(probs, c), n - 1, c);
    } else {
      DroppedMass(probs, c);
      CopiesTimes(Dropped(probs, c), 0.0);
    }
  }

  // ---------- when nothing passes ----------

  lemma {:induction false} SumBelow(probs: seq<Logit>, c: real)
    requires forall i :: 0 <= i < |probs| ==> ValueOf(probs[i]) <= c
    ensures Sum(probs) <= Copies(|probs|, c)
  {
    if |probs| > 0 { SumBelow(probs[..|probs| - 1], c); }
  }

  /** Then the greatest probability alone exceeds topP: it is the nucleus. */
  lemma NothingPasses(probs: seq<Logit>, topP: real, best: nat)
    requires Distribution(probs) && topP < 1.0 && |Filtered(probs, Cutoff(|probs|, topP))| == 0
    requires best < |probs| && forall i :: 0 <= i < |probs| ==> AtLeast(probs[best], probs[i])
    ensures IsNucleus([Entry(best, probs[best])], probs, topP)
  {
    var n, c, p := |probs|, Cutoff(|probs|, topP), probs[best].value;
    forall i | 0 <= i < n ensures ValueOf(probs[i]) <= p {
      assert AtLeast(probs[best], probs[i]);
    }
    SumBelow(probs, p);
    assert Copies(1, p) == Copies(0, p) + p;
    if Passes(probs[best], c) {
      FilteredHas(probs, c, best);
    }
    if n > 1 {
      CutoffCopies(n, topP);
      GreatestExceeds(n, c, p, topP);
    }
    SingleNucleus(probs, topP, best);
  }

  lemma GreatestExceeds(n: nat, c: real, p: real, topP: real)
    requires n > 1 && Copies(n - 1, c) == 1.0 - topP && Copies(n, p) >= 1.0 && (p < c || p <= 0.0) && topP < 1.0
    ensures p > topP
  {
    if p < c {
      CopiesLess(n - 1, p, c);
    } else {
      CopiesNotPositive(n - 1, p);
    }
  }

  lemma {:induction false} CopiesLess(n: nat, p: real, c: real)
    requires n > 0 && p < c
    ensures Copies(n, p) < Copies(n, c)
  {
    if n > 1 { CopiesLess(n - 1, p, c); }
  }

  lemma {:induction false} CopiesNotPositive(n: nat, p: real)
    requires p <= 0.0
    ensures Copies(n, p) <= 0.0
  {
    if n > 0 { CopiesNotPositive(n - 1, p); }
  }

  lemma SingleNucleus(probs: seq<Logit>, topP: real, best: nat)
    requires best < |probs| && probs[best].Fin? && probs[best].value >= topP
    requires forall i :: 0 <= i < |probs| ==> AtLeast(probs[best], probs[i])
    ensures IsNucleus([Entry(best, probs[best])], probs, topP)
  {
    var s := [Entry(best, probs[best])];
    assert s[..0] == [];
    assert Mass(s) == Mass(s[..0]) + probs[best].value;
  }

  // ---------- masses do not depend on the order ----------

  lemma {:induction false} MassConcat(s: seq<Entry>, t: seq<Entry>)
    ensures Mass(s + t) == Mass(s) + Mass(t)
  {
    if |t| == 0 {
      assert s + t == s;
    } else {
      assert (s + t)[..|s + t| - 1] == s + t[..|t| - 1];
      MassConcat(s, t[..|t| - 1]);
    }
  }

  lemma MassMiddle(a: seq<Entry>, e: Entry, b: seq<Entry>)
    ensures Mass(a + ([e] + b)) == Mass(a + b) + ValueOf(e.key)
  {
    MassConcat(a, [e] + b);
    MassConcat([e], b);
    MassConcat(a, b);
    assert [e][..0] == [];
  }

  lemma MassWithout(t: seq<Entry>, k: nat)
    requires k < |t|
    ensures Mass(t) == Mass(t[..k] + t[k + 1..]) + ValueOf(t[k].key)
  {
    var a, e, b := t[..k], t[k], t[k + 1..];
    SplitEntry(t, k);
    MassMiddle(a, e, b);
  }

  lemma SplitEntry(t: seq<Entry>, k: nat)
    requires k < |t|
    ensures t == t[..k] + ([t[k]] + t[k + 1..])
  {
  }

  lemma PermutesWithout(s: seq<Entry>, t: seq<Entry>) returns (k: nat)
    requires Permutes(s, t) && |s| > 0
    ensures k < |t| && t[k] == s[|s| - 1] && Permutes(s[..|s| - 1], t[..k] + t[k + 1..])
  {
    var n := |s| - 1;
    assert s[n] in multiset(s);
    k :| 0 <= k < |t| && t[k] == s[n];
    assert s == s[..n] + [s[n]];
    assert t == t[..k] + [t[k]] + t[k + 1..];
    assert multiset(s) == multiset(s[..n]) + multiset{s[n]};
    assert multiset(t) == multiset(t[..k]) + multiset{t[k]} + multiset(t[k + 1..]);
    var rest := t[..k] + t[k + 1..];
    assert multiset(rest) == multiset(t[..k]) + multiset(t[k + 1..]);
    assert multiset(s[..n]) == multiset(s) - multiset{s[n]};
    assert multiset(rest) == multiset(t) - multiset{t[k]};
  }

  lemma {:induction false} MassPermutes(s: seq<Entry>, t: seq<Entry>)
    requires Permutes(s, t)
    ensures Mass(s) == Mass(t)
    decreases |s|
  {
    assert |multiset(s)| == |s| && |multiset(t)| == |t|;
    if |s| > 0 {
      var k := PermutesWithout(s, t);
      MassPermutes(s[..|s| - 1], t[..k] + t[k + 1..]);
      MassWithout(t, k);
    }
  }

  lemma {:induction false} MassMonotone(s: seq<Entry>, m: nat, n: nat)
    requires m <= n <= |s| && forall i :: 0 <= i < |s| ==> ValueOf(s[i].key) >= 0.0
    ensures Mass(s[..m]) <= Mass(s[..n])
  {
    if m < n {
      assert s[..n][..n - 1] == s[..n - 1];
      MassMonotone(s, m, n - 1);
    }
  }

  // ---------- the growing window ----------

  /** The first c entries are sorted and nothing after them beats them. */
  predicate Window(s: seq<Entry>, c: nat) {
    c <= |s| && Descending(s[..c]) && forall i, j :: 0 <= i < c <= j < |s| ==> AtLeast(s[i].key, s[j].key)
  }

  lemma WindowAfterSort(before: seq<Entry>, after: seq<Entry>, c: nat)
    requires 0 < c <= |before| && |after| == |before| && (c < |before| ==> SplitAt(before, c - 1))
    requires after[c..] == before[c..] && Permutes(before[..c], after[..c]) && Descending(after[..c])
    ensures Window(after, c)
  {
    forall i, j | 0 <= i < c <= j < |after| ensures AtLeast(after[i].key, after[j].key) {
      assert after[i] == after[..c][i] && after[..c][i] in multiset(after[..c]);
      var k :| 0 <= k < c && before[..c][k] == after[i];
      assert AtLeast(before[k].key, before[j].key);
      assert after[c..][j - c] == before[c..][j - c];
    }
  }

  /** Selects and sorts ever larger beginnings until one holds the mass or everything is sorted. */
  method GrowWindow(filtered: seq<Entry>, topP: real) returns (scratch: seq<Entry>, c: nat)
    requires |filtered| > 0
    ensures |scratch| == |filtered| && Permutes(filtered, scratch)
    ensures 0 < c <= |scratch| && Window(scratch, c) && (Mass(scratch[..c]) >= topP || c == |scratch|)
  {
    scratch := filtered;
    c := if |filtered| < 1024 then |filtered| else 1024;
    while true
      invariant |scratch| == |filtered| && Permutes(filtered, scratch) && 0 < c <= |scratch|
      decreases |scratch| - c
    {
      scratch := SortWindow(scratch, c);
      var mass := MassOf(scratch[..c]);
      if mass >= topP || c == |scratch| {
        return;
      }
      c := if c * 2 <= |scratch| then c * 2 else |scratch|;
    }
  }

  method SortWindow(s: seq<Entry>, c: nat) returns (t: seq<Entry>)
    requires 0 < c <= |s|
    ensures |t| == |s| && Permutes(s, t) && Window(t, c)
  {
    var split := s;
    if c < |s| {
      split := SelectNth(s, c - 1);
    }
    t := SortPrefix(split, c);
    WindowAfterSort(split, t, c);
  }

  method MassOf(s: seq<Entry>) returns (mass: real)
    ensures mass == Mass(s)
  {
    mass := 0.0;
    for i := 0 to |s|
      invariant mass == Mass(s[..i])
    {
      assert s[..i + 1][..i] == s[..i];
      mass := mass + ValueOf(s[i].key);
    }
    assert s[..|s|] == s;
  }

  // ---------- from the window to the nucleus ----------

  /** The scan for the mass: the first n at which it is reached. */
  method FindMass(scratch: seq<Entry>, topP: real, ghost c: nat) returns (n: nat, mass: real)
    requires 0 < c <= |scratch| && Mass(scratch[..c]) >= topP
    requires forall i :: 0 <= i < |scratch| ==> ValueOf(scratch[i].key) >= 0.0
    ensures 0 < n <= c && mass == Mass(scratch[..n]) >= topP
    ensures n > 1 ==> Mass(scratch[..n - 1]) < topP
  {
    mass := 0.0;
    for i := 0 to |scratch|
      invariant i < c || (i == c && Mass(scratch[..c]) < topP)
      invariant mass == Mass(scratch[..i]) && (i > 0 ==> mass < topP)
    {
      assert scratch[..i + 1][..i] == scratch[..i];
      mass := mass + ValueOf(scratch[i].key);
      if mass >= topP {
        return i + 1, mass;
      }
    }
    assert false;
  }

  lemma PermutedEntries(probs: seq<Logit>, cutoff: real, t: seq<Entry>)
    requires Permutes(Filtered(probs, cutoff), t)
    ensures EntriesOfProbs(t, probs)
    ensures forall i :: 0 <= i < |t| ==> Passes(t[i].key, cutoff)
  {
    var s := Filtered(probs, cutoff);
    forall i | 0 <= i < |t| ensures t[i].index < |probs| && t[i].key == probs[t[i].index] && Passes(t[i].key, cutoff) {
      assert t[i] in multiset(t);
      assert t[i] in s;
      var k :| 0 <= k < |s| && s[k] == t[i];
      FilteredEntries(probs, cutoff, k);
    }
    forall e ensures multiset(t)[e] <= 1 {
      FilteredOnce(probs, cutoff, e);
    }
  }

  lemma BeginningEntries(probs: seq<Logit>, t: seq<Entry>, n: nat)
    requires EntriesOfProbs(t, probs) && n <= |t|
    ensures EntriesOfProbs(t[..n], probs)
  {
    assert t == t[..n] + t[n..];
    forall e ensures multiset(t[..n])[e] <= 1 {
      assert multiset(t)[e] == multiset(t[..n])[e] + multiset(t[n..])[e];
    }
  }

  /** A token left out of the window's beginning is either later in the window's list or was filtered away. */
  lemma LeftOut(probs: seq<Logit>, cutoff: real, t: seq<Entry>, c: nat, n: nat, token: nat, i: nat)
    requires Permutes(Filtered(probs, cutoff), t) && Window(t, c) && 0 < n <= c && NotNegative(probs)
    requires token < |probs| && !Has(t[..n], token) && i < n && Passes(t[i].key, cutoff)
    ensures AtLeast(t[i].key, probs[token])
  {
    if Passes(probs[token], cutoff) {
      FilteredHas(probs, cutoff, token);
      assert Entry(token, probs[token]) in multiset(t);
      var k :| 0 <= k < |t| && t[k] == Entry(token, probs[token]);
      assert forall q :: 0 <= q < n ==> t[..n][q] == t[q];
      if k < c { assert AtLeast(t[..c][i].key, t[..c][k].key); }
    }
  }

  lemma WindowTopPrefix(probs: seq<Logit>, cutoff: real, t: seq<Entry>, c: nat, n: nat)
    requires Permutes(Filtered(probs, cutoff), t) && Window(t, c) && 0 < n <= c && NotNegative(probs)
    ensures TopPrefix(t[..n], probs)
  {
    PermutedEntries(probs, cutoff, t);
    BeginningEntries(probs, t, n);
    forall i, j | 0 <= i < j < n ensures AtLeast(t[..n][i].key, t[..n][j].key) {
      assert AtLeast(t[..c][i].key, t[..c][j].key);
    }
    forall token | 0 <= token < |probs| && !Has(t[..n], token)
      ensures forall i :: 0 <= i < n ==> AtLeast(t[..n][i].key, probs[token])
    {
      forall i | 0 <= i < n ensures AtLeast(t[..n][i].key, probs[token]) {
        LeftOut(probs, cutoff, t, c, n, token, i);
      }
    }
  }

  // ---------- drawing ----------

  /** r falls into the part of entry i when the entries are laid end to end. */
  predicate FallsAt(s: seq<Entry>, r: real, i: nat) {
    i < |s| && r <= Mass(s[..i + 1]) && (i > 0 ==> Mass(s[..i]) < r)
  }

  /** The token's entry is the one into which r falls. */
  predicate FallsOn(s: seq<Entry>, r: real, token: nat) {
    exists i :: 0 <= i < |s| && FallsAt(s, r, i) && s[i].index == token
  }

  /** The first entry whose cumulated probability reaches r. */
  method Draw(s: seq<Entry>, r: real) returns (token: nat)
    requires |s| > 0 && r <= Mass(s)
    ensures Has(s, token) && FallsOn(s, r, token)
  {
    var cumulated := 0.0;
    assert s[..|s|] == s;
    for i := 0 to |s|
      invariant cumulated == Mass(s[..i]) && (i > 0 ==> cumulated < r)
    {
      assert s[..i + 1][..i] == s[..i];
      cumulated := cumulated + ValueOf(s[i].key);
      if cumulated >= r {
        assert FallsAt(s, r, i);
        return s[i].index;
      }
    }
    assert false;
  }

  /** `sample_top_p`, with u the random number drawn from [0, 1): the token returned has a positive probability,
      and it lies in the nucleus of a full sort. */
  method SampleTopP(probs: seq<Logit>, topP: real, u: real) returns (token: nat, ghost nucleus: seq<Entry>)
    requires (|probs| > 0 ==> Distribution(probs)) && topP < 1.0 && 0.0 <= u < 1.0
    ensures |probs| == 0 ==> token == 0
    ensures |probs| > 0 ==> token < |probs| && probs[token].value > 0.0
    ensures |probs| > 0 ==> FallsOn(nucleus, Times(u, Mass(nucleus)), token)
    ensures |probs| > 0 ==> IsNucleus(nucleus, probs, topP) && Has(nucleus, token)
  {
    var cutoff := Cutoff(|probs|, topP);
    var filtered := Filter(probs, cutoff);
    if |filtered| == 0 {
      token := Argmax(probs);
      nucleus := NothingFiltered(probs, topP, token, u);
      return;
    }
    FilteredMass(probs, topP);
    token, nucleus := SampleFiltered(probs, cutoff, filtered, topP, u);
  }

  lemma NothingFiltered(probs: seq<Logit>, topP: real, best: nat, u: real) returns (nucleus: seq<Entry>)
    requires (|probs| > 0 ==> Distribution(probs)) && 0.0 <= u < 1.0 && topP < 1.0 && |Filtered(probs, Cutoff(|probs|, topP))| == 0
    requires SomeFinite(probs) ==> best < |probs| && forall i :: 0 <= i < |probs| ==> AtLeast(probs[best], probs[i])
    ensures |probs| > 0 ==> best < |probs| && probs[best].Fin? && probs[best].value > 0.0
    ensures |probs| > 0 ==> FallsOn(nucleus, Times(u, Mass(nucleus)), best)
    ensures |probs| > 0 ==> IsNucleus(nucleus, probs, topP) && Has(nucleus, best)
  {
    nucleus := [];
    if |probs| > 0 {
      SomeProbability(probs);
      GreatestPositive(probs, best);
      nucleus := [Entry(best, probs[best])];
      NothingPasses(probs, topP, best);
      assert nucleus[0].index == best;
      OnlyEntry(nucleus, u);
    }
  }

  lemma OnlyEntry(s: seq<Entry>, u: real)
    requires |s| == 1 && 0.0 <= u < 1.0 && ValueOf(s[0].key) > 0.0
    ensures FallsAt(s, Times(u, Mass(s)), 0)
  {
    assert s[..1] == s && s[..0] == [];
    assert Mass(s) == Mass(s[..0]) + ValueOf(s[0].key);
    var r := Portion(u, Mass(s));
  }

  lemma GreatestPositive(probs: seq<Logit>, best: nat)
    requires Distribution(probs) && best < |probs| && forall i :: 0 <= i < |probs| ==> AtLeast(probs[best], probs[i])
    ensures probs[best].value > 0.0
  {
    var p := probs[best].value;
    forall i | 0 <= i < |probs| ensures ValueOf(probs[i]) <= p {
      assert AtLeast(probs[best], probs[i]);
    }
    SumBelow(probs, p);
    if p <= 0.0 { CopiesNotPositive(|probs|, p); }
  }

  method SampleFiltered(ghost probs: seq<Logit>, ghost cutoff: real, filtered: seq<Entry>, topP: real, u: real)
    returns (token: nat, ghost nucleus: seq<Entry>)
    requires NotNegative(probs) && topP < 1.0 && 0.0 <= u < 1.0
    requires filtered == Filtered(probs, cutoff) && |filtered| > 0 && Mass(filtered) >= topP
    ensures token < |probs| && probs[token].value > 0.0 && FallsOn(nucleus, Times(u, Mass(nucleus)), token)
    ensures IsNucleus(nucleus, probs, topP) && Has(nucleus, token)
  {
    var scratch, c := GrowWindow(filtered, topP);
    WindowMass(probs, cutoff, filtered, scratch, c, topP);
    var n, mass := FindMass(scratch, topP, c);
    nucleus := scratch[..n];
    WindowTopPrefix(probs, cutoff, scratch, c, n);
    WindowNucleus(probs, cutoff, scratch, c, n, topP);
    EntriesNotNegative(nucleus, probs);
    MassNotNegative(nucleus);
    token := Draw(scratch[..n], Portion(u, mass));
    PermutedEntries(probs, cutoff, scratch);
    PassedToken(probs, cutoff, scratch, n, token);
  }

  lemma {:induction false} MassNotNegative(s: seq<Entry>)
    requires forall i :: 0 <= i < |s| ==> ValueOf(s[i].key) >= 0.0
    ensures Mass(s) >= 0.0
  {
    if |s| > 0 { MassNotNegative(s[..|s| - 1]); }
  }

  lemma PassedToken(probs: seq<Logit>, cutoff: real, scratch: seq<Entry>, n: nat, token: nat)
    requires EntriesOfProbs(scratch, probs) && n <= |scratch| && Has(scratch[..n], token)
    requires forall i :: 0 <= i < |scratch| ==> Passes(scratch[i].key, cutoff)
    ensures token < |probs| && probs[token].Fin? && probs[token].value > 0.0
  {
    var i :| 0 <= i < n && scratch[..n][i].index == token;
    assert Passes(scratch[i].key, cutoff);
  }

  lemma WindowMass(probs: seq<Logit>, cutoff: real, filtered: seq<Entry>, scratch: seq<Entry>, c: nat, topP: real)
    requires filtered == Filtered(probs, cutoff) && Permutes(filtered, scratch) && Mass(filtered) >= topP
    requires c <= |scratch| && (Mass(scratch[..c]) >= topP || c == |scratch|)
    ensures Mass(scratch[..c]) >= topP
    ensures forall i :: 0 <= i < |scratch| ==> ValueOf(scratch[i].key) >= 0.0
  {
    MassPermutes(filtered, scratch);
    assert scratch[..|scratch|] == scratch;
    PermutedEntries(probs, cutoff, scratch);
    forall i | 0 <= i < |scratch| ensures ValueOf(scratch[i].key) >= 0.0 {
      assert Passes(scratch[i].key, cutoff);
    }
  }

  /** The random share of the mass. */
  function Portion(u: real, mass: real): (r: real)
    requires 0.0 <= u < 1.0 && mass >= 0.0
    ensures 0.0 <= r <= mass && r == Times(u, mass)
  {
    ProductNotNegative(u, mass);
    ProductNotNegative(1.0 - u, mass);
    assert (1.0 - u) * mass == mass - u * mass;
    u * mass
  }

  lemma ProductNotNegative(x: real, y: real)
    requires x >= 0.0 && y >= 0.0
    ensures x * y >= 0.0
  {
  }

  lemma SomeProbability(probs: seq<Logit>)
    requires Distribution(probs)
    ensures |probs| > 0 && SomeFinite(probs)
  {
    assert probs[0].Fin?;
  }

  lemma WindowNucleus(probs: seq<Logit>, cutoff: real, t: seq<Entry>, c: nat, n: nat, topP: real)
    requires Permutes(Filtered(probs, cutoff), t) && Window(t, c) && 0 < n <= c && NotNegative(probs)
    requires Mass(t[..n]) >= topP && (n > 1 ==> Mass(t[..n - 1]) < topP)
    ensures IsNucleus(t[..n], probs, topP)
  {
    WindowTopPrefix(probs, cutoff, t, c, n);
    assert t[..n][..n - 1] == t[..n - 1];
  }

  // ---------- drawing from everything ----------

  /** u lies in the token's share of the unit interval. */
  predicate InShare(probs: seq<Logit>, u: real, token: nat) {
    token < |probs| && u <= Sum(probs[..token + 1]) && (token > 0 ==> Sum(probs[..token]) < u)
  }

  /** `sample_categorical`: the token in whose share u falls. Its probability is positive unless u is 0 and the first token has none. */
  method SampleCategorical(probs: seq<Logit>, u: real) returns (token: nat)
    requires (|probs| > 0 ==> Distribution(probs)) && 0.0 <= u < 1.0
    ensures |probs| == 0 ==> token == 0
    ensures |probs| > 0 ==> InShare(probs, u, token)
    ensures |probs| > 0 ==> (probs[token].value > 0.0 <==> u > 0.0 || probs[0].value > 0.0)
  {
    var cumulated := 0.0;
    for i := 0 to |probs|
      invariant cumulated == Sum(probs[..i]) && (i > 0 ==> cumulated < u)
    {
      assert probs[..i + 1][..i] == probs[..i];
      cumulated := cumulated + ValueOf(probs[i]);
      if u <= cumulated {
        ShareProbability(probs, u, i);
        return i;
      }
    }
    assert probs[..|probs|] == probs;
    assert |probs| == 0;
    token := 0;
  }

  lemma ShareProbability(probs: seq<Logit>, u: real, token: nat)
    requires NotNegative(probs) && u >= 0.0 && InShare(probs, u, token)
    ensures probs[token].value > 0.0 <==> u > 0.0 || probs[0].value > 0.0
  {
    var upTo := probs[..token + 1];
    assert probs[token].Fin? && upTo[..token] == probs[..token] && upTo[token] == probs[token];
    assert Sum(upTo) == Sum(probs[..token]) + ValueOf(probs[token]);
    if token > 0 { FirstShare(probs, token); }
  }

  lemma {:induction false} FirstShare(probs: seq<Logit>, n: nat)
    requires NotNegative(probs) && 0 < n <= |probs|
    ensures Sum(probs[..n]) >= probs[0].value
  {
    assert probs[..n][..n - 1] == probs[..n - 1];
    assert probs[n - 1].Fin? && probs[n - 1].value >= 0.0;
    if n > 1 { FirstShare(probs, n - 1); }
  }

  /** A draw of 0 takes the first token, even one of probability zero. */
  lemma ZeroDraw(token: nat)
    ensures Distribution([Fin(0.0), Fin(1.0)])
    ensures InShare([Fin(0.0), Fin(1.0)], 0.0, token) <==> token == 0
  {
    var probs := [Fin(0.0), Fin(1.0)];
    assert probs[..1] == [Fin(0.0)] && probs[..2] == probs && [Fin(0.0)][..0] == [];
  }

  // ---------- the nucleus is unique up to ties ----------

  ghost function Tokens(s: seq<Entry>, n: nat): (tokens: set<nat>)
    requires n <= |s|
    ensures forall i :: 0 <= i < n ==> s[i].index in tokens
    ensures forall t :: t in tokens ==> exists i :: 0 <= i < n && s[i].index == t
    ensures |tokens| <= n
  {
    if n == 0 then {}
    else
      var fewer := Tokens(s, n - 1);
      assert |fewer + {s[n - 1].index}| <= |fewer| + 1;
      fewer + {s[n - 1].index}
  }

  lemma Twice(s: seq<Entry>, i: nat, j: nat)
    requires i < j < |s|
    ensures s[i] == s[j] ==> multiset(s)[s[j]] >= 2
  {
    assert s == s[..j] + [s[j]] + s[j + 1..];
    assert s[..j][i] in multiset(s[..j]);
    assert multiset(s)[s[j]] == multiset(s[..j])[s[j]] + 1 + multiset(s[j + 1..])[s[j]];
  }

  lemma DistinctTokens(s: seq<Entry>, probs: seq<Logit>, i: nat, j: nat)
    requires EntriesOfProbs(s, probs) && i < j < |s|
    ensures s[i].index != s[j].index
  {
    Twice(s, i, j);
    assert multiset(s)[s[j]] <= 1;
  }

  lemma {:induction false} TokensCount(s: seq<Entry>, probs: seq<Logit>, n: nat)
    requires EntriesOfProbs(s, probs) && n <= |s|
    ensures |Tokens(s, n)| == n
  {
    if n > 0 {
      TokensCount(s, probs, n - 1);
      var fewer := Tokens(s, n - 1);
      forall i | 0 <= i < n - 1 ensures s[i].index != s[n - 1].index {
        DistinctTokens(s, probs, i, n - 1);
      }
      assert s[n - 1].index !in fewer;
    }
  }

  /** A token strictly above s[i] stands before it. */
  lemma StandsBefore(s: seq<Entry>, probs: seq<Logit>, i: nat, token: nat)
    requires TopPrefix(s, probs) && i < |s| && token < |probs|
    ensures AtLeast(s[i].key, probs[token]) || token in Tokens(s, i)
  {
    if Has(s, token) {
      var k :| 0 <= k < |s| && s[k].index == token;
      SelfAtLeast(s[i].key);
    }
  }

  lemma AboveStandBefore(s: seq<Entry>, t: seq<Entry>, probs: seq<Logit>, i: nat, x: nat)
    requires TopPrefix(s, probs) && TopPrefix(t, probs) && i < |s| && i < |t| && x in Tokens(t, i + 1)
    ensures AtLeast(s[i].key, t[i].key) || x in Tokens(s, i)
  {
    var a :| 0 <= a < i + 1 && t[a].index == x;
    if a < i { assert AtLeast(t[a].key, t[i].key); }
    StandsBefore(s, probs, i, x);
  }

  lemma TopKeysAtLeast(s: seq<Entry>, t: seq<Entry>, probs: seq<Logit>, i: nat)
    requires TopPrefix(s, probs) && TopPrefix(t, probs) && i < |s| && i < |t|
    ensures AtLeast(s[i].key, t[i].key)
  {
    TokensCount(t, probs, i + 1);
    forall x | x in Tokens(t, i + 1) ensures AtLeast(s[i].key, t[i].key) || x in Tokens(s, i) {
      AboveStandBefore(s, t, probs, i, x);
    }
    if Tokens(t, i + 1) <= Tokens(s, i) { Common.SubsetSize(Tokens(t, i + 1), Tokens(s, i)); }
  }

  lemma {:induction false} MassAgrees(s: seq<Entry>, t: seq<Entry>, n: nat)
    requires n <= |s| && n <= |t| && forall i :: 0 <= i < n ==> ValueOf(s[i].key) == ValueOf(t[i].key)
    ensures Mass(s[..n]) == Mass(t[..n])
  {
    if n > 0 {
      MassAgrees(s, t, n - 1);
      assert s[..n][..n - 1] == s[..n - 1] && t[..n][..n - 1] == t[..n - 1];
    }
  }

  lemma NotShorter(s: seq<Entry>, t: seq<Entry>, topP: real)
    requires |s| > 0 && |t| > 0 && Mass(s) >= topP && (|t| > 1 ==> Mass(t[..|t| - 1]) < topP)
    requires forall i :: 0 <= i < |t| ==> ValueOf(t[i].key) >= 0.0
    requires forall i :: 0 <= i < |s| && i < |t| ==> ValueOf(s[i].key) == ValueOf(t[i].key)
    ensures |s| >= |t|
  {
    if |s| < |t| {
      MassAgrees(s, t, |s|);
      assert s[..|s|] == s;
      MassMonotone(t, |s|, |t| - 1);
    }
  }

  lemma EntriesNotNegative(s: seq<Entry>, probs: seq<Logit>)
    requires NotNegative(probs) && EntriesOfProbs(s, probs)
    ensures forall i :: 0 <= i < |s| ==> s[i].key.Fin? && ValueOf(s[i].key) >= 0.0
  {
    forall i | 0 <= i < |s| ensures s[i].key.Fin? && ValueOf(s[i].key) >= 0.0 {
      assert s[i].key == probs[s[i].index];
    }
  }

  /** Any two nuclei have the same size and the same probabilities in order: only ties can be broken differently. */
  lemma NucleusUnique(s: seq<Entry>, t: seq<Entry>, probs: seq<Logit>, topP: real)
    requires NotNegative(probs) && IsNucleus(s, probs, topP) && IsNucleus(t, probs, topP)
    ensures |s| == |t| && forall i :: 0 <= i < |s| ==> s[i].key == t[i].key
  {
    EntriesNotNegative(s, probs);
    EntriesNotNegative(t, probs);
    forall i | 0 <= i < |s| && i < |t| ensures s[i].key == t[i].key {
      TopKeysAtLeast(s, t, probs, i);
      TopKeysAtLeast(t, s, probs, i);
    }
    NotShorter(s, t, topP);
    NotShorter(t, s, topP);
  }
}
