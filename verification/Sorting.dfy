/** A stable sort by an order on the elements, as every sorted list in the program is made. */
module Sorting {

  type Order<!T> = (T, T) -> bool

  /** Any two elements compare, and comparing is transitive. */
  ghost predicate IsOrder<T(!new)>(atMost: Order<T>) {
    && (forall x, y :: atMost(x, y) || atMost(y, x))
    && (forall x, y, z :: atMost(x, y) && atMost(y, z) ==> atMost(x, z))
  }

  ghost predicate Ordered<T>(atMost: Order<T>, s: seq<T>) {
    forall i, j :: 0 <= i < j < |s| ==> atMost(s[i], s[j])
  }

  ghost predicate NoRepeats<T>(s: seq<T>) {
    forall i, j :: 0 <= i < j < |s| ==> s[i] != s[j]
  }

  /** Puts an element behind everything that is at most it. */
  function Place<T>(atMost: Order<T>, sorted: seq<T>, x: T): seq<T> {
    if sorted == [] then [x]
    else if atMost(sorted[|sorted| - 1], x) then sorted + [x]
    else Place(atMost, sorted[..|sorted| - 1], x) + [sorted[|sorted| - 1]]
  }

  function Sort<T>(atMost: Order<T>, s: seq<T>): seq<T> {
    if s == [] then [] else Place(atMost, Sort(atMost, s[..|s| - 1]), s[|s| - 1])
  }

  lemma {:induction false} PlaceKeepsAll<T>(atMost: Order<T>, sorted: seq<T>, x: T)
    ensures multiset(Place(atMost, sorted, x)) == multiset(sorted) + multiset{x}
  {
    if sorted != [] {
      assert sorted == sorted[..|sorted| - 1] + [sorted[|sorted| - 1]];
      PlaceKeepsAll(atMost, sorted[..|sorted| - 1], x);
    }
  }

  lemma {:induction false} SortKeepsAll<T>(atMost: Order<T>, s: seq<T>)
    ensures multiset(Sort(atMost, s)) == multiset(s) && |Sort(atMost, s)| == |s|
    ensures forall x :: x in Sort(atMost, s) <==> x in s
  {
    if s != [] {
      assert s == s[..|s| - 1] + [s[|s| - 1]];
      SortKeepsAll(atMost, s[..|s| - 1]);
      PlaceKeepsAll(atMost, Sort(atMost, s[..|s| - 1]), s[|s| - 1]);
    }
    assert |multiset(Sort(atMost, s))| == |multiset(s)|;
    forall x
      ensures x in Sort(atMost, s) <==> x in s
    {
      assert x in Sort(atMost, s) <==> x in multiset(Sort(atMost, s));
      assert x in s <==> x in multiset(s);
    }
  }

  lemma OrderedMore<T>(atMost: Order<T>, front: seq<T>, last: T)
    requires Ordered(atMost, front) && forall x :: x in front ==> atMost(x, last)
    ensures Ordered(atMost, front + [last])
  {
  }

  lemma {:induction false} PlaceOrders<T(!new)>(atMost: Order<T>, sorted: seq<T>, x: T)
    requires IsOrder(atMost) && Ordered(atMost, sorted)
    ensures Ordered(atMost, Place(atMost, sorted, x))
  {
    if sorted != [] {
      var n := |sorted| - 1;
      var last := sorted[n];
      if atMost(last, x) {
        forall y | y in sorted
          ensures atMost(y, x)
        {
          var i :| 0 <= i <= n && sorted[i] == y;
          assert i < n ==> atMost(y, last);
        }
        OrderedMore(atMost, sorted, x);
      } else {
        PlaceOrders(atMost, sorted[..n], x);
        PlaceKeepsAll(atMost, sorted[..n], x);
        var placed := Place(atMost, sorted[..n], x);
        forall y | y in placed
          ensures atMost(y, last)
        {
          assert y in multiset(placed);
          assert y == x || y in sorted[..n];
        }
        OrderedMore(atMost, placed, last);
      }
    }
  }

  lemma {:induction false} SortOrders<T(!new)>(atMost: Order<T>, s: seq<T>)
    requires IsOrder(atMost)
    ensures Ordered(atMost, Sort(atMost, s))
  {
    if s != [] {
      SortOrders(atMost, s[..|s| - 1]);
      PlaceOrders(atMost, Sort(atMost, s[..|s| - 1]), s[|s| - 1]);
    }
  }

  /** A list in order is its own sort. */
  lemma {:induction false} SortOfOrdered<T>(atMost: Order<T>, s: seq<T>)
    requires Ordered(atMost, s)
    ensures Sort(atMost, s) == s
  {
    if s != [] {
      var n := |s| - 1;
      SortOfOrdered(atMost, s[..n]);
      assert n > 0 ==> s[..n][n - 1] == s[n - 1];
      assert s == s[..n] + [s[n]];
    }
  }

  /** No two different elements are equal in the order. */
  ghost predicate Strict<T>(atMost: Order<T>, s: seq<T>) {
    forall i, j :: 0 <= i < |s| && 0 <= j < |s| && atMost(s[i], s[j]) && atMost(s[j], s[i]) ==> s[i] == s[j]
  }

  lemma FoundIn<T>(a: seq<T>, b: seq<T>, x: T) returns (i: nat)
    requires multiset(a) == multiset(b) && x in a
    ensures i < |b| && b[i] == x
  {
    assert x in multiset(b);
    i :| 0 <= i < |b| && b[i] == x;
  }

  lemma LastAgrees<T>(atMost: Order<T>, a: seq<T>, b: seq<T>)
    requires Ordered(atMost, a) && Ordered(atMost, b) && multiset(a) == multiset(b) && Strict(atMost, a)
    requires a != [] && b != []
    ensures a[|a| - 1] == b[|b| - 1]
  {
    var i := FoundIn(a, b, a[|a| - 1]);
    var j := FoundIn(b, a, b[|b| - 1]);
    assert i < |b| - 1 ==> atMost(b[i], b[|b| - 1]);
    assert j < |a| - 1 ==> atMost(a[j], a[|a| - 1]);
  }

  lemma WithoutLast<T>(s: seq<T>)
    requires s != []
    ensures multiset(s[..|s| - 1]) == multiset(s) - multiset{s[|s| - 1]}
  {
    assert s == s[..|s| - 1] + [s[|s| - 1]];
  }

  /** Where the order is strict, the order of the input does not matter. */
  lemma {:induction false} OrderedIsUnique<T>(atMost: Order<T>, a: seq<T>, b: seq<T>)
    requires Ordered(atMost, a) && Ordered(atMost, b) && multiset(a) == multiset(b) && Strict(atMost, a)
    ensures a == b
  {
    assert |a| == |multiset(a)| == |multiset(b)| == |b|;
    if a != [] {
      var n := |a| - 1;
      LastAgrees(atMost, a, b);
      WithoutLast(a);
      WithoutLast(b);
      OrderedIsUnique(atMost, a[..n], b[..n]);
      assert a == a[..n] + [a[n]] && b == b[..n] + [b[n]];
    }
  }

  lemma {:induction false} NoRepeatsIffOnce<T>(s: seq<T>)
    ensures NoRepeats(s) <==> forall x :: multiset(s)[x] <= 1
  {
    if s != [] {
      var n := |s| - 1;
      var front := s[..n];
      assert s == front + [s[n]];
      NoRepeatsIffOnce(front);
      if NoRepeats(s) {
        assert NoRepeats(front);
        assert s[n] !in front;
        forall x
          ensures multiset(s)[x] <= 1
        {
          assert multiset(s)[x] == multiset(front)[x] + if x == s[n] then 1 else 0;
          assert x == s[n] ==> x !in multiset(front);
        }
      } else if NoRepeats(front) {
        var i :| 0 <= i < n && s[i] == s[n];
        assert front[i] in multiset(front);
        assert multiset(s)[s[n]] == multiset(front)[s[n]] + 1;
      } else {
        var x :| multiset(front)[x] > 1;
        assert multiset(s)[x] >= multiset(front)[x];
      }
    }
  }

  lemma SortKeepsDistinct<T>(atMost: Order<T>, s: seq<T>)
    requires NoRepeats(s)
    ensures NoRepeats(Sort(atMost, s))
  {
    SortKeepsAll(atMost, s);
    NoRepeatsIffOnce(s);
    NoRepeatsIffOnce(Sort(atMost, s));
  }
}
