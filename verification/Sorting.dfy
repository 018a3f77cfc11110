/** Sorting by a text key, as a list of distinct keys is sorted: one order, whatever the order before. */
module Sorting {
  import opened CanonicalJson

  predicate Increasing<T(!new)>(key: T -> Str, xs: seq<T>) {
    forall i, j :: 0 <= i < j < |xs| ==> Less(key(xs[i]), key(xs[j]))
  }

  predicate Distinct<T(!new)>(key: T -> Str, xs: seq<T>) {
    forall i, j :: 0 <= i < j < |xs| ==> key(xs[i]) != key(xs[j])
  }

  function Insert<T(==)>(key: T -> Str, x: T, xs: seq<T>): (r: seq<T>)
    ensures multiset(r) == multiset(xs) + multiset{x}
  {
    if xs == [] then [x]
    else
      assert xs == [xs[0]] + xs[1..];
      if Less(key(x), key(xs[0])) then [x] + xs else [xs[0]] + Insert(key, x, xs[1..])
  }

  function SortBy<T(==)>(key: T -> Str, xs: seq<T>): (r: seq<T>)
    ensures multiset(r) == multiset(xs)
  {
    if xs == [] then []
    else
      var n := |xs| - 1;
      assert xs == xs[..n] + [xs[n]];
      Insert(key, xs[n], SortBy(key, xs[..n]))
  }

  lemma {:induction false} InsertKeepsOrder<T(!new)>(key: T -> Str, x: T, xs: seq<T>)
    requires Increasing(key, xs) && forall i :: 0 <= i < |xs| ==> key(xs[i]) != key(x)
    ensures Increasing(key, Insert(key, x, xs))
  {
    hide Less;
    if xs != [] {
      LessTotal(key(x), key(xs[0]));
      if Less(key(x), key(xs[0])) {
        forall i | 0 < i < |xs| ensures Less(key(x), key(xs[i])) {
          LessTransitive(key(x), key(xs[0]), key(xs[i]));
        }
      } else {
        var rest := Insert(key, x, xs[1..]);
        InsertKeepsOrder(key, x, xs[1..]);
        forall k | 0 <= k < |rest| ensures Less(key(xs[0]), key(rest[k])) {
          assert rest[k] in multiset(xs[1..]) + multiset{x};
        }
      }
    }
  }

  lemma {:induction false} SortingOrders<T(!new)>(key: T -> Str, xs: seq<T>)
    requires Distinct(key, xs)
    ensures Increasing(key, SortBy(key, xs))
  {
    hide Less, Increasing;
    if xs == [] {
      NothingToOrder(key);
    } else {
      var n := |xs| - 1;
      SortingOrders(key, xs[..n]);
      var sorted := SortBy(key, xs[..n]);
      forall i | 0 <= i < |sorted| ensures key(sorted[i]) != key(xs[n]) {
        assert sorted[i] in multiset(xs[..n]);
      }
      InsertKeepsOrder(key, xs[n], sorted);
    }
  }

  lemma NothingToOrder<T(!new)>(key: T -> Str)
    ensures Increasing(key, [])
  {
  }

  lemma SameLeast<T(!new)>(key: T -> Str, a: seq<T>, b: seq<T>)
    requires Increasing(key, a) && Increasing(key, b) && multiset(a) == multiset(b) && a != [] && b != []
    ensures a[0] == b[0]
  {
    hide Less;
    assert a[0] in multiset(b) && b[0] in multiset(a);
    LessTotal(key(a[0]), key(b[0]));
  }

  lemma {:induction false} OneIncreasingOrder<T(!new)>(key: T -> Str, a: seq<T>, b: seq<T>)
    requires Increasing(key, a) && Increasing(key, b) && multiset(a) == multiset(b)
    ensures a == b
  {
    hide Less;
    assert |a| == |multiset(a)| && |b| == |multiset(b)|;
    if a != [] {
      SameLeast(key, a, b);
      assert a == [a[0]] + a[1..] && b == [b[0]] + b[1..];
      assert multiset(a[1..]) == multiset(a) - multiset{a[0]};
      assert multiset(b[1..]) == multiset(b) - multiset{b[0]};
      OneIncreasingOrder(key, a[1..], b[1..]);
    }
  }

  /** Sorting forgets the order before and nothing else. */
  lemma SortedEqualExactly<T(!new)>(key: T -> Str, a: seq<T>, b: seq<T>)
    requires Distinct(key, a) && Distinct(key, b)
    ensures SortBy(key, a) == SortBy(key, b) <==> multiset(a) == multiset(b)
  {
    hide Increasing, Distinct;
    SortingOrders(key, a);
    SortingOrders(key, b);
    if multiset(a) == multiset(b) {
      OneIncreasingOrder(key, SortBy(key, a), SortBy(key, b));
    }
  }
}
