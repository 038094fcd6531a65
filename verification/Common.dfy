/** Option, and the few facts about finite sets the run-level proofs count with. */
module Common {
  datatype Option<+T> = None | Some(value: T)

  function Max(a: int, b: int): int { if a < b then b else a }

  function Min(a: int, b: int): int { if a < b then a else b }

  /** A subset has no more elements than the whole. */
  lemma SubsetSize<T>(a: set<T>, b: set<T>)
    requires a <= b
    ensures |a| <= |b|
  {
    assert b == a + (b - a);
  }

  /** A set all of whose elements are equal has at most one. */
  lemma AtMostOne<T>(a: set<T>)
    requires forall x, y :: x in a && y in a ==> x == y
    ensures |a| <= 1
  {
    if a != {} {
      var x :| x in a;
      assert a == {x};
    }
  }

  /** Distinct labels drawn from 1..n: there are at most n of them. */
  lemma {:induction false} LabelsBound<T>(a: set<T>, tag: map<T, nat>, n: nat)
    requires forall x :: x in a ==> x in tag && 1 <= tag[x] <= n
    requires forall x, y :: x in a && y in a && tag[x] == tag[y] ==> x == y
    ensures |a| <= n
    decreases n
  {
    if n == 0 {
      assert a == {};
    } else {
      var top := set x | x in a && tag[x] == n;
      AtMostOne(top);
      LabelsBound(a - top, tag, n - 1);
      assert a == (a - top) + top;
    }
  }
}
