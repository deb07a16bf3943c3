/** Sums of a per-element amount over a sequence, folded from the left as the
    source's loops and `reduce` do, with the algebra the pricing proofs use. */
module Sums {

  function SumBy<T>(s: seq<T>, f: T -> int): int {
    if s == [] then 0 else SumBy(s[..|s| - 1], f) + f(s[|s| - 1])
  }

  lemma {:induction false} SumByAppend<T>(a: seq<T>, b: seq<T>, f: T -> int)
    ensures SumBy(a + b, f) == SumBy(a, f) + SumBy(b, f)
  {
    if b != [] {
      assert (a + b)[..|a + b| - 1] == a + b[..|b| - 1];
      SumByAppend(a, b[..|b| - 1], f);
    } else {
      assert a + b == a;
    }
  }

  lemma SumBySingleton<T>(x: T, f: T -> int)
    ensures SumBy([x], f) == f(x)
  {
    assert [x][..0] == [];
  }

  lemma {:induction false} SumByZero<T>(s: seq<T>, f: T -> int)
    requires forall i | 0 <= i < |s| :: f(s[i]) == 0
    ensures SumBy(s, f) == 0
  {
    if s != [] {
      SumByZero(s[..|s| - 1], f);
    }
  }

  /** Two amounts that agree on every element give the same sum. */
  lemma {:induction false} SumByCongruent<T>(s: seq<T>, f: T -> int, g: T -> int)
    requires forall i | 0 <= i < |s| :: f(s[i]) == g(s[i])
    ensures SumBy(s, f) == SumBy(s, g)
  {
    if s != [] {
      SumByCongruent(s[..|s| - 1], f, g);
    }
  }

  /** A sum does not depend on the order of the elements. */
  lemma {:induction false} SumByPermutation<T>(a: seq<T>, b: seq<T>, f: T -> int)
    requires multiset(a) == multiset(b)
    ensures SumBy(a, f) == SumBy(b, f)
    decreases |a|
  {
    if a == [] {
      assert |b| == |multiset(b)| == 0;
    } else {
      var x := a[|a| - 1];
      var init := a[..|a| - 1];
      assert a == init + [x];
      assert x in multiset(b);
      var i :| 0 <= i < |b| && b[i] == x;
      var rest := b[..i] + b[i + 1..];
      assert b == b[..i] + [x] + b[i + 1..];
      assert multiset(b) == multiset(b[..i]) + multiset{x} + multiset(b[i + 1..]);
      assert multiset(a) == multiset(init) + multiset{x};
      assert multiset(rest) == multiset(b[..i]) + multiset(b[i + 1..]);
      assert multiset(init) == multiset(a) - multiset{x};
      assert multiset(rest) == multiset(b) - multiset{x};
      SumByPermutation(init, rest, f);
      SumByAppend(b[..i], b[i + 1..], f);
      SumByAppend(b[..i] + [x], b[i + 1..], f);
      SumByAppend(b[..i], [x], f);
      assert SumBy([x], f) == f(x) by {
        assert [x][..0] == [];
      }
    }
  }
}
