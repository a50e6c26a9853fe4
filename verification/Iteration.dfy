/** Repeating a keyed step, and undoing the repetition. */
module Iteration {

  predicate UndoAt<S(==), K>(f: (S, K) -> S, h: (S, K) -> S, x: S, k: K)
  {
    h(f(x, k), k) == x
  }

  /** h undoes f, whatever the key. */
  ghost predicate Undoing<S(!new), K(!new)>(f: (S, K) -> S, h: (S, K) -> S)
  {
    forall x, k :: UndoAt(f, h, x, k)
  }

  /** f applied with keys 1 to n. */
  function Run<S, K>(f: (S, K) -> S, ks: seq<K>, x: S, n: nat): S
    requires n < |ks|
  {
    if n == 0 then x else f(Run(f, ks, x, n - 1), ks[n])
  }

  /** h applied with keys n down to 1. */
  function Unrun<S, K>(h: (S, K) -> S, ks: seq<K>, x: S, n: nat): S
    requires n < |ks|
    decreases n
  {
    if n == 0 then x else Unrun(h, ks, h(x, ks[n]), n - 1)
  }

  lemma {:induction false} UnrunRun<S(!new), K(!new)>(f: (S, K) -> S, h: (S, K) -> S, ks: seq<K>, x: S, n: nat)
    requires Undoing(f, h) && n < |ks|
    ensures Unrun(h, ks, Run(f, ks, x, n), n) == x
  {
    if n > 0 {
      assert UndoAt(f, h, Run(f, ks, x, n - 1), ks[n]);
      UnrunRun(f, h, ks, x, n - 1);
    }
  }

  lemma {:induction false} RunUnrun<S(!new), K(!new)>(f: (S, K) -> S, h: (S, K) -> S, ks: seq<K>, x: S, n: nat)
    requires Undoing(h, f) && n < |ks|
    ensures Run(f, ks, Unrun(h, ks, x, n), n) == x
    decreases n
  {
    if n > 0 {
      RunUnrun(f, h, ks, h(x, ks[n]), n - 1);
      assert UndoAt(h, f, x, ks[n]);
    }
  }

  /** A sequence that starts at x and follows f is the run from x. */
  lemma {:induction false} RunFollows<S(!new), K>(f: (S, K) -> S, ks: seq<K>, x: S, path: nat -> S, n: nat)
    requires n < |ks| && path(0) == x
    requires forall i: nat | 0 < i <= n :: StepsAt(f, ks, path, i)
    ensures Run(f, ks, x, n) == path(n)
    decreases n
  {
    if n > 0 {
      RunFollows(f, ks, x, path, n - 1);
      assert StepsAt(f, ks, path, n);
    }
  }

  predicate StepsAt<S(==), K>(f: (S, K) -> S, ks: seq<K>, path: nat -> S, i: nat)
    requires 0 < i < |ks|
  {
    path(i) == f(path(i - 1), ks[i])
  }
}
