/** Entries ordered by descending key, and the library's selection and sorting of them. */
module Selection {
  import opened TokenMask

  datatype Entry = Entry(index: nat, key: Logit)

  /** a is at least b; minus infinity is below every number. */
  predicate AtLeast(a: Logit, b: Logit) {
    b.NegInf? || (a.Fin? && a.value >= b.value)
  }

  predicate Descending(s: seq<Entry>) {
    forall i, j :: 0 <= i < j < |s| ==> AtLeast(s[i].key, s[j].key)
  }

  predicate Permutes(s: seq<Entry>, t: seq<Entry>) {
    multiset(s) == multiset(t)
  }

  /** Everything up to position k is at least everything from there on. */
  predicate SplitAt(t: seq<Entry>, k: nat) {
    forall i, j :: 0 <= i <= k <= j < |t| ==> AtLeast(t[i].key, t[j].key)
  }

  function Insert(e: Entry, s: seq<Entry>): (t: seq<Entry>)
    ensures |t| == |s| + 1
    ensures multiset(t) == multiset(s) + multiset{e}
  {
    if |s| == 0 then [e]
    else if AtLeast(e.key, s[0].key) then
      [e] + s
    else
      assert s == [s[0]] + s[1..];
      [s[0]] + Insert(e, s[1..])
  }

  function Sorted(s: seq<Entry>): (t: seq<Entry>)
    ensures |t| == |s|
    ensures Permutes(s, t)
  {
    if |s| == 0 then []
    else
      assert s == [s[0]] + s[1..];
      Insert(s[0], Sorted(s[1..]))
  }

  lemma {:induction false} InsertMembers(e: Entry, s: seq<Entry>, x: Entry)
    requires x in Insert(e, s)
    ensures x == e || x in s
  {
    assert x in multiset(Insert(e, s));
  }

  lemma {:induction false} InsertDescending(e: Entry, s: seq<Entry>)
    requires Descending(s)
    ensures Descending(Insert(e, s))
  {
    if |s| > 0 && !AtLeast(e.key, s[0].key) {
      InsertDescending(e, s[1..]);
      var rest := Insert(e, s[1..]);
      forall j | 0 <= j < |rest| ensures AtLeast(s[0].key, rest[j].key) {
        InsertMembers(e, s[1..], rest[j]);
      }
      DescendingCons(s[0], rest);
    } else if |s| > 0 {
      forall j | 0 <= j < |s| ensures AtLeast(e.key, s[j].key) {
        if j > 0 { assert AtLeast(s[0].key, s[j].key); }
      }
      DescendingCons(e, s);
    }
  }

  lemma DescendingCons(e: Entry, s: seq<Entry>)
    requires Descending(s) && forall j :: 0 <= j < |s| ==> AtLeast(e.key, s[j].key)
    ensures Descending([e] + s)
  {
  }

  lemma {:induction false} SortedDescending(s: seq<Entry>)
    ensures Descending(Sorted(s))
  {
    if |s| > 0 {
      SortedDescending(s[1..]);
      InsertDescending(s[0], Sorted(s[1..]));
    }
  }

  /** `select_nth_unstable_by` with the descending order: any rearrangement that splits at position k. */
  method SelectNth(s: seq<Entry>, k: nat) returns (t: seq<Entry>)
    requires k < |s|
    ensures |t| == |s| && Permutes(s, t) && SplitAt(t, k)
  {
    t := Sorted(s);
    SortedDescending(s);
    forall i, j | 0 <= i <= k <= j < |t| ensures AtLeast(t[i].key, t[j].key) {
      if i == j { SelfAtLeast(t[i].key); }
    }
  }

  lemma SelfAtLeast(a: Logit)
    ensures AtLeast(a, a)
  {
  }

  /** `sort_unstable_by` on the first n entries. */
  method SortPrefix(s: seq<Entry>, n: nat) returns (t: seq<Entry>)
    requires n <= |s|
    ensures |t| == |s| && Permutes(s, t) && t[n..] == s[n..] && Permutes(s[..n], t[..n]) && Descending(t[..n])
  {
    t := Sorted(s[..n]) + s[n..];
    SortedDescending(s[..n]);
    assert t[..n] == Sorted(s[..n]);
    assert s == s[..n] + s[n..];
  }
}
