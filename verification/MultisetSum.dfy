/** Sums over a multiset. */
module MultisetSum {

  ghost function Pick<T>(m: multiset<T>): (x: T)
    requires m != multiset{}
    ensures x in m
  {
    var x :| x in m;
    x
  }

  ghost function Sum<T>(m: multiset<T>, f: T -> nat): nat
    decreases |m|
  {
    if m == multiset{} then 0
    else
      var x := Pick(m);
      f(x) + Sum(m - multiset{x}, f)
  }

  lemma {:induction false} SumInsert<T>(m: multiset<T>, x: T, f: T -> nat)
    ensures Sum(m + multiset{x}, f) == Sum(m, f) + f(x)
    decreases |m|
  {
    var big := m + multiset{x};
    var y := Pick(big);
    if y == x {
      assert big - multiset{x} == m;
    } else {
      var rest := m - multiset{y};
      assert big - multiset{y} == rest + multiset{x};
      assert rest + multiset{y} == m;
      SumInsert(rest, x, f);
      SumInsert(rest, y, f);
    }
  }

  lemma {:induction false} SumAgree<T>(m: multiset<T>, f: T -> nat, g: T -> nat)
    requires forall x :: x in m ==> f(x) == g(x)
    ensures Sum(m, f) == Sum(m, g)
    decreases |m|
  {
    if m != multiset{} {
      SumAgree(m - multiset{Pick(m)}, f, g);
    }
  }
}
