/** Sums over finite sets, for the accumulating loops that walk a Python set or dict. */
module SetSums {
  /** The sum of f over s, taking the elements in any order. */
  ghost function Sum<T>(s: set<T>, f: T -> int): int {
    if s == {} then 0 else var x :| x in s; f(x) + Sum(s - {x}, f)
  }

  /** Any element can be taken out first: the sum does not depend on the order. */
  lemma {:induction false} SumRemove<T>(s: set<T>, f: T -> int, y: T)
    requires y in s
    ensures Sum(s, f) == f(y) + Sum(s - {y}, f)
    decreases |s|
  {
    var x :| x in s && Sum(s, f) == f(x) + Sum(s - {x}, f);
    if x != y {
      SumRemove(s - {x}, f, y);
      SumRemove(s - {y}, f, x);
      assert s - {x} - {y} == s - {y} - {x};
    }
  }

  /** Adding one new element adds its value. */
  lemma SumAdd<T>(s: set<T>, f: T -> int, y: T)
    requires y !in s
    ensures Sum(s + {y}, f) == Sum(s, f) + f(y)
  {
    SumRemove(s + {y}, f, y);
    assert s + {y} - {y} == s;
  }

  /** Two functions that agree on s have the same sum over s. */
  lemma {:induction false} SumSame<T>(s: set<T>, f: T -> int, g: T -> int)
    requires forall x | x in s :: f(x) == g(x)
    ensures Sum(s, f) == Sum(s, g)
    decreases |s|
  {
    if s != {} {
      var x :| x in s && Sum(s, f) == f(x) + Sum(s - {x}, f);
      SumRemove(s, g, x);
      SumSame(s - {x}, f, g);
    }
  }

  /** Changing f at one element changes the sum by the difference there. */
  lemma SumChange<T>(s: set<T>, f: T -> int, g: T -> int, y: T)
    requires y in s && forall x | x in s && x != y :: f(x) == g(x)
    ensures Sum(s, g) == Sum(s, f) - f(y) + g(y)
  {
    SumRemove(s, f, y);
    SumRemove(s, g, y);
    SumSame(s - {y}, f, g);
  }
}
