/** Python's `sorted` on a set, for any total order. */
module Sorting {

  ghost predicate TotalOrder<T(!new)>(le: (T, T) -> bool) {
    && (forall a, b :: le(a, b) || le(b, a))
    && (forall a, b :: le(a, b) && le(b, a) ==> a == b)
    && (forall a, b, c :: le(a, b) && le(b, c) ==> le(a, c))
  }

  predicate IsLeast<T(==)>(le: (T, T) -> bool, x: T, s: set<T>) {
    x in s && forall y | y in s :: le(x, y)
  }

  lemma {:induction false} LeastExists<T(!new)>(le: (T, T) -> bool, s: set<T>)
    requires TotalOrder(le) && s != {}
    ensures exists x :: IsLeast(le, x, s)
    decreases s
  {
    var x :| x in s;
    var rest := s - {x};
    assert s == rest + {x};
    if rest == {} {
      assert IsLeast(le, x, s);
    } else {
      LeastExists(le, rest);
      var least :| IsLeast(le, least, rest);
      var m := if le(x, least) then x else least;
      assert IsLeast(le, m, s);
    }
  }

  function SortedBy<T(!new,==)>(le: (T, T) -> bool, s: set<T>): (r: seq<T>)
    requires TotalOrder(le)
    ensures |r| == |s|
    ensures forall x :: x in r <==> x in s
    decreases s
  {
    if s == {} then []
    else
      LeastExists(le, s);
      var x :| IsLeast(le, x, s);
      [x] + SortedBy(le, s - {x})
  }

  ghost predicate Ascending<T(!new)>(le: (T, T) -> bool, r: seq<T>) {
    forall i, j | 0 <= i < j < |r| :: le(r[i], r[j]) && r[i] != r[j]
  }

  lemma AscendingCons<T(!new)>(le: (T, T) -> bool, x: T, rest: seq<T>)
    requires Ascending(le, rest)
    requires forall y | y in rest :: le(x, y) && x != y
    ensures Ascending(le, [x] + rest)
  {
  }

  /** The listing ascends strictly. */
  lemma {:induction false} SortedAscends<T(!new)>(le: (T, T) -> bool, s: set<T>)
    requires TotalOrder(le)
    ensures Ascending(le, SortedBy(le, s))
    decreases s
  {
    if s != {} {
      var r := SortedBy(le, s);
      var x, rest := r[0], r[1..];
      assert IsLeast(le, x, s) && rest == SortedBy(le, s - {x}) && r == [x] + rest;
      SortedAscends(le, s - {x});
      forall y | y in rest ensures le(x, y) && x != y {
        assert y in s;
      }
      AscendingCons(le, x, rest);
    }
  }

  /** There is one strictly ascending listing of any elements. */
  lemma {:induction false} AscendingIsUnique<T(!new)>(le: (T, T) -> bool, a: seq<T>, b: seq<T>)
    requires TotalOrder(le) && Ascending(le, a) && Ascending(le, b)
    requires forall x :: x in a <==> x in b
    ensures a == b
    decreases |a|
  {
    if a == [] {
      HasElement(b);
    } else {
      assert a[0] in b;
      assert b[0] in b;
      FirstIsLeast(le, a, b[0]);
      FirstIsLeast(le, b, a[0]);
      forall x ensures x in a[1..] <==> x in b[1..] {
        InTheRest(le, a, x);
        InTheRest(le, b, x);
      }
      AscendingIsUnique(le, a[1..], b[1..]);
      assert a == [a[0]] + a[1..] && b == [b[0]] + b[1..];
    }
  }

  lemma HasElement<T>(a: seq<T>)
    ensures a != [] ==> exists x :: x in a
  {
    if a != [] { assert a[0] in a; }
  }

  lemma FirstIsLeast<T(!new)>(le: (T, T) -> bool, a: seq<T>, x: T)
    requires TotalOrder(le) && Ascending(le, a) && x in a
    ensures le(a[0], x)
  {
  }

  lemma InTheRest<T(!new)>(le: (T, T) -> bool, a: seq<T>, x: T)
    requires Ascending(le, a) && a != []
    ensures x in a[1..] <==> x in a && x != a[0]
  {
    assert a == [a[0]] + a[1..];
    if x in a[1..] {
      var i :| 0 <= i < |a[1..]| && a[1..][i] == x;
      assert a[i + 1] == x;
    }
  }
}
