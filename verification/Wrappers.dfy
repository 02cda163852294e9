/** Shared small types. */
module Wrappers {

  datatype Option<+T> = None | Some(value: T)

  function Max(a: nat, b: nat): nat {
    if a < b then b else a
  }

  /** One action after another. */
  function Fold<S, A>(f: (S, A) -> S, start: S, actions: seq<A>): S {
    if actions == [] then start else f(Fold(f, start, actions[..|actions| - 1]), actions[|actions| - 1])
  }

  lemma FoldSnoc<S, A>(f: (S, A) -> S, start: S, actions: seq<A>, last: A)
    ensures Fold(f, start, actions + [last]) == f(Fold(f, start, actions), last)
  {
    assert (actions + [last])[..|actions|] == actions;
  }

  lemma {:induction false} FoldAppend<S, A>(f: (S, A) -> S, start: S, a: seq<A>, b: seq<A>)
    ensures Fold(f, start, a + b) == Fold(f, Fold(f, start, a), b)
  {
    if b == [] {
      assert a + b == a;
    } else {
      assert (a + b)[..|a + b| - 1] == a + b[..|b| - 1];
      FoldAppend(f, start, a, b[..|b| - 1]);
    }
  }

  lemma FoldFour<S, A>(f: (S, A) -> S, start: S, a: A, b: seq<A>, c: A, d: seq<A>, s1: S, s2: S, s3: S, s4: S)
    requires f(start, a) == s1 && Fold(f, s1, b) == s2 && f(s2, c) == s3 && Fold(f, s3, d) == s4
    ensures Fold(f, start, [a] + b + [c] + d) == s4
  {
    FoldSnoc(f, start, [], a);
    assert [] + [a] == [a];
    FoldAppend(f, start, [a], b);
    FoldSnoc(f, start, [a] + b, c);
    FoldAppend(f, start, [a] + b + [c], d);
  }

  lemma FoldFive<S, A>(f: (S, A) -> S, start: S, a: A, b: A, c: A, d: A, e: A)
    ensures Fold(f, start, [a, b, c, d, e]) == f(f(f(f(f(start, a), b), c), d), e)
  {
    FoldSnoc(f, start, [], a);
    FoldSnoc(f, start, [a], b);
    FoldSnoc(f, start, [a, b], c);
    FoldSnoc(f, start, [a, b, c], d);
    FoldSnoc(f, start, [a, b, c, d], e);
    assert [] + [a] == [a] && [a] + [b] == [a, b] && [a, b] + [c] == [a, b, c];
    assert [a, b, c] + [d] == [a, b, c, d] && [a, b, c, d] + [e] == [a, b, c, d, e];
  }

  lemma FoldTwo<S, A>(f: (S, A) -> S, start: S, a: A, b: A)
    ensures Fold(f, start, [a, b]) == f(f(start, a), b)
  {
    FoldSnoc(f, start, [], a);
    FoldSnoc(f, start, [a], b);
    assert [] + [a] == [a] && [a] + [b] == [a, b];
  }

  lemma FoldThree<S, A>(f: (S, A) -> S, start: S, a: A, b: A, c: A)
    ensures Fold(f, start, [a, b, c]) == f(f(f(start, a), b), c)
  {
    FoldTwo(f, start, a, b);
    FoldSnoc(f, start, [a, b], c);
    assert [a, b] + [c] == [a, b, c];
  }
}
