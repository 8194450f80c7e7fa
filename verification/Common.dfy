/** Small types shared by several components. */
module Common {
  datatype Option<+T> = None | Some(value: T)

  datatype Result<+T, +E> = Ok(value: T) | Err(error: E)

  /** The source's `usize` is 64 bits wide. */
  const MAX_USIZE: nat := 0xFFFF_FFFF_FFFF_FFFF

  /** A text from its pieces. */
  function Joined(pieces: seq<string>): string {
    if |pieces| == 0 then "" else Joined(pieces[..|pieces| - 1]) + pieces[|pieces| - 1]
  }

  /** n is a whole number of chunks of h. */
  predicate Whole(n: nat, h: nat)
    requires h > 0
  {
    n == 0 || (n >= h && Whole(n - h, h))
  }

  lemma {:induction false} SubsetSize(a: set<nat>, b: set<nat>)
    requires a <= b
    ensures |a| <= |b|
  {
    if a != {} {
      var x :| x in a;
      SubsetSize(a - {x}, b - {x});
    }
  }

  lemma DivUnique(n: nat, size: nat, q: nat, r: nat)
    requires size > 0 && n == q * size + r && r < size
    ensures n / size == q && n % size == r
  {
    var q1, r1 := n / size, n % size;
    assert (q1 - q) * size == r - r1;
    if q1 > q {
      TimesAtLeast(q1 - q, size);
      assert false;
    } else if q1 < q {
      TimesAtLeast(q - q1, size);
      assert false;
    }
  }

  lemma {:induction false} TimesAtLeast(k: nat, size: nat)
    requires k > 0
    ensures k * size >= size
  {
    if k > 1 {
      TimesAtLeast(k - 1, size);
      assert k * size == (k - 1) * size + size;
    }
  }
}
