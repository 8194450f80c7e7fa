/** What running stacked causal layers over a token sequence means: a grid of states and activations,
    one cell per layer and token, in whatever order it is filled. */
module Grid {

  /** A run of `layers` layers over the embedded tokens xs, whose first has position `base`.
      `next` and `out` give layer i's state and output after a token, from its state before and its input. */
  datatype Run<!S, !X> = Run(
    layers: nat,
    next: (nat, S, nat, X) -> S,
    out: (nat, S, nat, X) -> X,
    init: seq<S>,
    base: nat,
    xs: seq<X>)

  predicate RunOk<S, X>(r: Run<S, X>) {
    |r.init| == r.layers
  }

  /** The activation of token p on entry to layer i; i == layers is the final one. */
  function Act<S, X>(r: Run<S, X>, i: nat, p: nat): X
    requires RunOk(r) && i <= r.layers && p < |r.xs|
    decreases p, i
  {
    if i == 0 then r.xs[p] else r.out(i - 1, StateAt(r, i - 1, p), r.base + p, Act(r, i - 1, p))
  }

  /** The state of layer i after p tokens. */
  function StateAt<S, X>(r: Run<S, X>, i: nat, p: nat): S
    requires RunOk(r) && i < r.layers && p <= |r.xs|
    decreases p, i
  {
    if p == 0 then r.init[i] else r.next(i, StateAt(r, i, p - 1), r.base + (p - 1), Act(r, i, p - 1))
  }

  // ---------- causality ----------

  /** r and q agree on everything up to their first n tokens. */
  ghost predicate Shares<S, X>(r: Run<S, X>, q: Run<S, X>, n: nat) {
    && RunOk(r) && RunOk(q) && n <= |r.xs| && n <= |q.xs|
    && r.layers == q.layers && r.next == q.next && r.out == q.out
    && r.init == q.init && r.base == q.base && r.xs[..n] == q.xs[..n]
  }

  lemma {:induction false} SharedAct<S, X>(r: Run<S, X>, q: Run<S, X>, n: nat, i: nat, p: nat)
    requires Shares(r, q, n) && i <= r.layers && p < n
    ensures Act(r, i, p) == Act(q, i, p)
    decreases p, i
  {
    if i == 0 {
      assert r.xs[p] == r.xs[..n][p] && q.xs[p] == q.xs[..n][p];
    } else {
      SharedState(r, q, n, i - 1, p);
      SharedAct(r, q, n, i - 1, p);
    }
  }

  /** What a layer keeps after p tokens depends on those tokens only. */
  lemma {:induction false} SharedState<S, X>(r: Run<S, X>, q: Run<S, X>, n: nat, i: nat, p: nat)
    requires Shares(r, q, n) && i < r.layers && p <= n
    ensures StateAt(r, i, p) == StateAt(q, i, p)
    decreases p, i
  {
    if p > 0 {
      SharedState(r, q, n, i, p - 1);
      SharedAct(r, q, n, i, p - 1);
    }
  }
}
