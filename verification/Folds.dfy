/** Folding over a sequence with steps that commute: the order of the sequence does not matter. */
module Folds {

  function Fold<S, X>(f: (S, X) -> S, s: S, xs: seq<X>): S
    decreases |xs|
  {
    if xs == [] then s else Fold(f, f(s, xs[0]), xs[1..])
  }

  ghost predicate Commute<S(!new), X>(f: (S, X) -> S, x: X, y: X) {
    forall s :: f(f(s, x), y) == f(f(s, y), x)
  }

  ghost predicate AllCommute<S(!new), X(!new)>(f: (S, X) -> S, xs: seq<X>) {
    forall x, y :: x in xs && y in xs ==> Commute(f, x, y)
  }

  lemma {:induction false} FoldAppend<S, X>(f: (S, X) -> S, s: S, xs: seq<X>, ys: seq<X>)
    ensures Fold(f, s, xs + ys) == Fold(f, Fold(f, s, xs), ys)
    decreases |xs|
  {
    if xs == [] {
      assert xs + ys == ys;
    } else {
      assert (xs + ys)[1..] == xs[1..] + ys;
      FoldAppend(f, f(s, xs[0]), xs[1..], ys);
    }
  }

  /** A step can be taken before all steps it commutes with. */
  lemma {:induction false} MoveToFront<S(!new), X(!new)>(f: (S, X) -> S, s: S, xs: seq<X>, i: nat)
    requires i < |xs| && AllCommute(f, xs)
    ensures Fold(f, s, xs) == Fold(f, f(s, xs[i]), xs[..i] + xs[i + 1..])
    decreases i
  {
    if i == 0 {
      assert xs[..0] + xs[1..] == xs[1..];
    } else {
      var x, y, rest := xs[0], xs[i], xs[1..];
      assert forall z :: z in rest ==> z in xs;
      MoveToFront(f, f(s, x), rest, i - 1);
      assert x in xs && y in xs && Commute(f, x, y);
      assert f(f(s, x), y) == f(f(s, y), x);
      var others := xs[..i] + xs[i + 1..];
      assert others[0] == x && others[1..] == rest[..i - 1] + rest[i..];
    }
  }

  lemma RemoveSame<X>(xs: seq<X>, ys: seq<X>, i: nat)
    requires xs != [] && i < |ys| && ys[i] == xs[0] && multiset(xs) == multiset(ys)
    ensures multiset(xs[1..]) == multiset(ys[..i] + ys[i + 1..])
  {
    assert xs == [xs[0]] + xs[1..] && ys == ys[..i] + [ys[i]] + ys[i + 1..];
    assert multiset(xs[1..]) == multiset(xs) - multiset{xs[0]};
  }

  /** The fold of a multiset: every order gives the same result. */
  lemma {:induction false} FoldPermutation<S(!new), X(!new)>(f: (S, X) -> S, s: S, xs: seq<X>, ys: seq<X>)
    requires multiset(xs) == multiset(ys) && AllCommute(f, xs)
    ensures Fold(f, s, xs) == Fold(f, s, ys)
    decreases |xs|
  {
    assert |xs| == |multiset(xs)| == |multiset(ys)| == |ys|;
    if xs != [] {
      assert xs[0] in multiset(xs);
      var i :| 0 <= i < |ys| && ys[i] == xs[0];
      RemoveSame(xs, ys, i);
      SameMembers(f, xs, ys);
      MoveToFront(f, s, ys, i);
      assert forall z :: z in xs[1..] ==> z in xs;
      FoldPermutation(f, f(s, xs[0]), xs[1..], ys[..i] + ys[i + 1..]);
    }
  }

  lemma SameMembers<S(!new), X(!new)>(f: (S, X) -> S, xs: seq<X>, ys: seq<X>)
    requires multiset(xs) == multiset(ys) && AllCommute(f, xs)
    ensures AllCommute(f, ys)
  {
    forall x | x in ys ensures x in xs {
      assert x in multiset(ys);
    }
  }
}
