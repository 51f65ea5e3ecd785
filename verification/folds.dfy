/** Left folds of a step function over a sequence, and why the order of the
    steps does not matter when any two steps commute. The ledger and the
    commit callback are both such folds. */
module Folds {

  /** Applies `f` to `s` and each element of `xs` in turn. */
  function Fold<S, T>(f: (S, T) -> S, s: S, xs: seq<T>): S
    decreases |xs|
  {
    if |xs| == 0 then s else Fold(f, f(s, xs[0]), xs[1..])
  }

  /** Any two steps give the same state in either order. */
  ghost predicate Commutes<S(!new), T(!new)>(f: (S, T) -> S)
  {
    forall s: S, x: T, y: T :: f(f(s, x), y) == f(f(s, y), x)
  }

  /** Folding over a concatenation folds over the parts one after the other. */
  lemma {:induction false} FoldAppend<S, T>(f: (S, T) -> S, s: S, xs: seq<T>, ys: seq<T>)
    ensures Fold(f, s, xs + ys) == Fold(f, Fold(f, s, xs), ys)
    decreases |xs|
  {
    if |xs| > 0 {
      assert (xs + ys)[0] == xs[0] && (xs + ys)[1..] == xs[1..] + ys;
      FoldAppend(f, f(s, xs[0]), xs[1..], ys);
    } else {
      assert xs + ys == ys;
    }
  }

  /** With commuting steps, one step can be moved to the front. */
  lemma {:induction false} FoldMoveFront<S(!new), T(!new)>(f: (S, T) -> S, s: S, p: seq<T>, x: T, q: seq<T>)
    requires Commutes(f)
    ensures Fold(f, s, p + [x] + q) == Fold(f, s, [x] + p + q)
    decreases |p|
  {
    if |p| > 0 {
      var y := p[0];
      assert (p + [x] + q)[0] == y && (p + [x] + q)[1..] == p[1..] + [x] + q;
      FoldMoveFront(f, f(s, y), p[1..], x, q);
      assert ([x] + p[1..] + q)[0] == x && ([x] + p[1..] + q)[1..] == p[1..] + q;
      assert f(f(s, y), x) == f(f(s, x), y);
      assert ([x] + p + q)[0] == x && ([x] + p + q)[1..] == p + q;
      assert (p + q)[0] == y && (p + q)[1..] == p[1..] + q;
    }
  }

  /** Taking the first element of `xs` out of both sides of a multiset
      equality: it sits at some index `i` of `ys`. */
  lemma RemoveMatching<T>(xs: seq<T>, ys: seq<T>) returns (i: nat)
    requires |xs| > 0 && multiset(xs) == multiset(ys)
    ensures i < |ys| && ys[i] == xs[0]
    ensures ys == ys[..i] + [xs[0]] + ys[i + 1..]
    ensures multiset(xs[1..]) == multiset(ys[..i] + ys[i + 1..])
  {
    var x := xs[0];
    assert x in multiset(ys);
    i :| 0 <= i < |ys| && ys[i] == x;
    var p, q := ys[..i], ys[i + 1..];
    assert ys == p + [x] + q;
    assert xs == [x] + xs[1..];
    assert multiset(xs) == multiset{x} + multiset(xs[1..]);
    assert multiset(ys) == multiset(p) + multiset{x} + multiset(q);
    assert multiset(p + q) == multiset(p) + multiset(q);
    calc {
      multiset(xs[1..]);
      multiset(xs) - multiset{x};
      multiset(ys) - multiset{x};
      multiset(p + q);
    }
  }

  /** With commuting steps, every permutation of the same elements folds to
      the same state. */
  lemma {:induction false} FoldPermutation<S(!new), T(!new)>(f: (S, T) -> S, s: S, xs: seq<T>, ys: seq<T>)
    requires Commutes(f)
    requires multiset(xs) == multiset(ys)
    ensures Fold(f, s, xs) == Fold(f, s, ys)
    decreases |xs|
  {
    if |xs| == 0 {
      assert |ys| == |multiset(ys)| == 0;
    } else {
      var x := xs[0];
      var i := RemoveMatching(xs, ys);
      var p, q := ys[..i], ys[i + 1..];
      FoldPermutation(f, f(s, x), xs[1..], p + q);
      FoldMoveFront(f, s, p, x, q);
      assert ([x] + p + q)[0] == x && ([x] + p + q)[1..] == p + q;
    }
  }
}
