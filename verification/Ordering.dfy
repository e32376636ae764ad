/** Strict total orders and the unique sorted enumeration of a set: what `ORDER BY` returns. */
module Ordering {
  ghost predicate StrictTotalOrder<T(!new)>(less: (T, T) -> bool) {
    && (forall x :: !less(x, x))
    && (forall x, y, z :: less(x, y) && less(y, z) ==> less(x, z))
    && (forall x, y :: x == y || less(x, y) || less(y, x))
  }

  ghost predicate SortedBy<T(!new)>(s: seq<T>, less: (T, T) -> bool) {
    forall i, j :: 0 <= i < j < |s| ==> less(s[i], s[j])
  }

  ghost predicate Enumerates<T(!new)>(r: seq<T>, s: set<T>) {
    forall x :: x in r <==> x in s
  }

  lemma {:induction false} LeastExists<T(!new)>(s: set<T>, less: (T, T) -> bool) returns (m: T)
    requires StrictTotalOrder(less) && s != {}
    ensures m in s && forall x :: x in s && x != m ==> less(m, x)
  {
    m :| m in s;
    if s != {m} {
      var rest := s - {m};
      assert rest != {};
      var n := LeastExists(rest, less);
      if less(n, m) {
        m := n;
      }
    }
  }

  function Sorted<T(==, !new)>(s: set<T>, less: (T, T) -> bool): (r: seq<T>)
    requires StrictTotalOrder(less)
    ensures SortedBy(r, less) && Enumerates(r, s) && |r| == |s|
    decreases |s|
  {
    if s == {} then []
    else
      assert exists m :: m in s && forall x :: x in s && x != m ==> less(m, x) by {
        var m := LeastExists(s, less);
      }
      var m :| m in s && forall x :: x in s && x != m ==> less(m, x);
      [m] + Sorted(s - {m}, less)
  }

  lemma TailOf<T(!new)>(a: seq<T>, less: (T, T) -> bool, x: T)
    requires StrictTotalOrder(less) && SortedBy(a, less) && a != []
    ensures x in a[1..] <==> x in a && x != a[0]
  {
    if x in a && x != a[0] {
      var i :| 0 <= i < |a| && a[i] == x;
      assert a[1..][i - 1] == x;
    }
    if x in a[1..] {
      var i :| 0 <= i < |a| - 1 && a[1..][i] == x;
      assert a[i + 1] == x && less(a[0], a[i + 1]);
    }
  }

  lemma HeadIsLeast<T(!new)>(a: seq<T>, less: (T, T) -> bool, x: T)
    requires SortedBy(a, less) && x in a
    ensures x == a[0] || less(a[0], x)
  {
  }

  /** A sorted enumeration of a set is unique. */
  lemma {:induction false} SortedIsUnique<T(!new)>(a: seq<T>, b: seq<T>, less: (T, T) -> bool)
    requires StrictTotalOrder(less) && SortedBy(a, less) && SortedBy(b, less)
    requires forall x :: x in a <==> x in b
    ensures a == b
  {
    assert a == [] || a[0] in a;
    assert b == [] || b[0] in b;
    if a != [] {
      HeadIsLeast(a, less, b[0]);
      HeadIsLeast(b, less, a[0]);
      assert a == [a[0]] + a[1..] && b == [b[0]] + b[1..];
      forall x
        ensures x in a[1..] <==> x in b[1..]
      {
        TailOf(a, less, x);
        TailOf(b, less, x);
      }
      SortedIsUnique(a[1..], b[1..], less);
    }
  }

  lemma SortedIs<T(!new)>(r: seq<T>, s: set<T>, less: (T, T) -> bool)
    requires StrictTotalOrder(less) && SortedBy(r, less) && Enumerates(r, s)
    ensures r == Sorted(s, less)
  {
    SortedIsUnique(r, Sorted(s, less), less);
  }
}
