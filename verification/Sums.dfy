/** Sums over finite sets. */
module Sums {

  /** The sum of f over a set; TotalOfRest says that any order of summation gives it. */
  ghost function Total<T(!new)>(f: T -> nat, s: set<T>): nat
    decreases s
  {
    if s == {} then 0
    else
      var x :| x in s;
      f(x) + Total(f, s - {x})
  }

  /** Any element can be taken out first. */
  lemma {:induction false} TotalOfRest<T(!new)>(f: T -> nat, s: set<T>, x: T)
    requires x in s
    ensures Total(f, s) == f(x) + Total(f, s - {x})
    decreases s
  {
    var y :| y in s && Total(f, s) == f(y) + Total(f, s - {y});
    if x != y {
      TotalOfRest(f, s - {y}, x);
      TotalOfRest(f, s - {x}, y);
      assert s - {y} - {x} == s - {x} - {y};
    }
  }

  lemma TotalOfMore<T(!new)>(f: T -> nat, s: set<T>, x: T)
    requires x !in s
    ensures Total(f, s + {x}) == f(x) + Total(f, s)
  {
    TotalOfRest(f, s + {x}, x);
    assert s + {x} - {x} == s;
  }

  lemma {:induction false} TotalSplits<T(!new)>(f: T -> nat, a: set<T>, b: set<T>)
    requires a !! b
    ensures Total(f, a + b) == Total(f, a) + Total(f, b)
    decreases b
  {
    if b == {} {
      assert a + b == a;
    } else {
      var x :| x in b;
      TotalSplits(f, a, b - {x});
      TotalOfMore(f, b - {x}, x);
      TotalOfMore(f, a + (b - {x}), x);
      assert b - {x} + {x} == b && a + (b - {x}) + {x} == a + b;
    }
  }

  lemma {:induction false} TotalsAgree<T(!new)>(f: T -> nat, g: T -> nat, s: set<T>)
    requires forall x | x in s :: f(x) == g(x)
    ensures Total(f, s) == Total(g, s)
    decreases s
  {
    if s != {} {
      var x :| x in s;
      TotalOfRest(f, s, x);
      TotalOfRest(g, s, x);
      TotalsAgree(f, g, s - {x});
    }
  }

  /** One more at a single place. */
  lemma TotalGrows<T(!new)>(f: T -> nat, g: T -> nat, s: set<T>, x: T)
    requires x in s && g(x) == f(x) + 1 && forall y | y in s && y != x :: g(y) == f(y)
    ensures Total(g, s) == Total(f, s) + 1
  {
    TotalOfRest(f, s, x);
    TotalOfRest(g, s, x);
    TotalsAgree(f, g, s - {x});
  }

  lemma {:induction false} TotalOfZeros<T(!new)>(f: T -> nat, s: set<T>)
    requires forall x | x in s :: f(x) == 0
    ensures Total(f, s) == 0
    decreases s
  {
    if s != {} {
      var x :| x in s;
      TotalOfRest(f, s, x);
      TotalOfZeros(f, s - {x});
    }
  }
}
