/** Repeating a step and folding over a sequence, for any step. */
module Iteration {

  function Iter<T>(f: T -> T, x: T, k: nat): T
    decreases k, x
  {
    if k == 0 then x else Iter(f, f(x), k - 1)
  }

  function Fold<T, U>(g: (T, U) -> T, x: T, data: seq<U>): T
    decreases |data|
  {
    if data == [] then x else Fold(g, g(x, data[0]), data[1..])
  }

  /** A step that commutes with an operation does so when repeated. */
  lemma {:induction false} IterHomomorphic<T(!new)>(f: T -> T, op: (T, T) -> T, x: T, y: T, k: nat)
    requires forall a, b :: f(op(a, b)) == op(f(a), f(b))
    ensures Iter(f, op(x, y), k) == op(Iter(f, x, k), Iter(f, y, k))
    decreases k
  {
    if k > 0 {
      IterHomomorphic(f, op, f(x), f(y), k - 1);
    }
  }

  lemma {:induction false} IterInjective<T(!new)>(f: T -> T, x: T, y: T, k: nat)
    requires forall a, b :: f(a) == f(b) ==> a == b
    ensures Iter(f, x, k) == Iter(f, y, k) <==> x == y
    decreases k
  {
    if k > 0 {
      IterInjective(f, f(x), f(y), k - 1);
    }
  }

  lemma {:induction false} IterAdd<T>(f: T -> T, x: T, k: nat, m: nat)
    ensures Iter(f, x, k + m) == Iter(f, Iter(f, x, k), m)
    decreases k
  {
    if k > 0 {
      IterAdd(f, f(x), k - 1, m);
    }
  }

  lemma EightSteps<T>(f: T -> T, x: T, x1: T, x2: T, x3: T, x4: T, x5: T, x6: T, x7: T, x8: T)
    requires f(x) == x1 && f(x1) == x2 && f(x2) == x3 && f(x3) == x4
    requires f(x4) == x5 && f(x5) == x6 && f(x6) == x7 && f(x7) == x8
    ensures Iter(f, x, 8) == x8
  {
    assert Iter(f, x7, 1) == x8;
    assert Iter(f, x6, 2) == x8;
    assert Iter(f, x5, 3) == x8;
    assert Iter(f, x4, 4) == x8;
    assert Iter(f, x3, 5) == x8;
    assert Iter(f, x2, 6) == x8;
    assert Iter(f, x1, 7) == x8;
  }

  lemma FoldStep<T, U>(g: (T, U) -> T, x: T, data: seq<U>)
    requires data != []
    ensures Fold(g, x, data) == Fold(g, g(x, data[0]), data[1..])
  {
  }

  lemma FoldThree<T, U>(g: (T, U) -> T, x: T, a: U, b: U, c: U)
    ensures Fold(g, x, [a, b, c]) == g(g(g(x, a), b), c)
  {
    assert [a, b, c][1..] == [b, c] && [b, c][1..] == [c];
    assert Fold(g, g(g(x, a), b), [c]) == g(g(g(x, a), b), c);
  }

  lemma FoldFour<T, U>(g: (T, U) -> T, x: T, a: U, b: U, c: U, d: U)
    ensures Fold(g, x, [a, b, c, d]) == g(g(g(g(x, a), b), c), d)
  {
    assert [a, b, c, d][1..] == [b, c, d] && [b, c, d][1..] == [c, d] && [c, d][1..] == [d];
    assert Fold(g, g(g(g(x, a), b), c), [d]) == g(g(g(g(x, a), b), c), d);
    assert Fold(g, g(g(x, a), b), [c, d]) == g(g(g(g(x, a), b), c), d);
  }

  lemma {:induction false} FoldAppend<T, U>(g: (T, U) -> T, x: T, a: seq<U>, b: seq<U>)
    ensures Fold(g, x, a + b) == Fold(g, Fold(g, x, a), b)
    decreases |a|
  {
    if a == [] {
      assert a + b == b;
    } else {
      assert (a + b)[0] == a[0] && (a + b)[1..] == a[1..] + b;
      FoldAppend(g, g(x, a[0]), a[1..], b);
    }
  }

  lemma {:induction false} FoldInjective<T(!new), U(!new)>(g: (T, U) -> T, x: T, y: T, data: seq<U>)
    requires forall a, b, u :: g(a, u) == g(b, u) ==> a == b
    ensures Fold(g, x, data) == Fold(g, y, data) <==> x == y
    decreases |data|
  {
    if data != [] {
      FoldInjective(g, g(x, data[0]), g(y, data[0]), data[1..]);
    }
  }
}
