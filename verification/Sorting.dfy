/** sorted(..., key=...): a stable insertion sort, and when its result is unique. */
module Sorting {
  ghost predicate Ordered<T>(key: T -> int, s: seq<T>) {
    s == [] || ((forall y | y in s[1..] :: key(s[0]) <= key(y)) && Ordered(key, s[1..]))
  }

  function Insert<T>(key: T -> int, x: T, s: seq<T>): seq<T> {
    if s == [] || key(x) <= key(s[0]) then [x] + s else [s[0]] + Insert(key, x, s[1..])
  }

  function SortBy<T>(key: T -> int, s: seq<T>): seq<T> {
    if s == [] then [] else Insert(key, s[0], SortBy(key, s[1..]))
  }

  lemma {:induction false} InsertAdds<T>(key: T -> int, x: T, s: seq<T>)
    ensures multiset(Insert(key, x, s)) == multiset(s) + multiset{x}
  {
    if s != [] && key(x) > key(s[0]) {
      InsertAdds(key, x, s[1..]);
      assert s == [s[0]] + s[1..];
    }
  }

  lemma {:induction false} InsertOrders<T>(key: T -> int, x: T, s: seq<T>)
    requires Ordered(key, s)
    ensures Ordered(key, Insert(key, x, s))
  {
    var r := Insert(key, x, s);
    if s == [] || key(x) <= key(s[0]) {
      assert r[1..] == s;
    } else {
      InsertOrders(key, x, s[1..]);
      InsertAdds(key, x, s[1..]);
      assert r[1..] == Insert(key, x, s[1..]);
      forall y | y in r[1..] ensures key(s[0]) <= key(y) {
        assert y in multiset(r[1..]);
      }
    }
  }

  lemma {:induction false} SortSorts<T>(key: T -> int, s: seq<T>)
    ensures multiset(SortBy(key, s)) == multiset(s)
    ensures Ordered(key, SortBy(key, s))
  {
    if s != [] {
      SortSorts(key, s[1..]);
      InsertAdds(key, s[0], SortBy(key, s[1..]));
      InsertOrders(key, s[0], SortBy(key, s[1..]));
      assert s == [s[0]] + s[1..];
    }
  }

  lemma HeadsAgree<T>(key: T -> int, a: seq<T>, b: seq<T>)
    requires a != [] && b != [] && Ordered(key, a) && Ordered(key, b) && multiset(a) == multiset(b)
    ensures key(a[0]) == key(b[0]) && b[0] in a
  {
    assert a[0] in multiset(b) && b[0] in multiset(a);
  }

  lemma TailOf<T>(s: seq<T>)
    requires s != []
    ensures multiset(s[1..]) == multiset(s) - multiset{s[0]}
  {
    assert s == [s[0]] + s[1..];
  }

  lemma {:induction false} OrderedIsUnique<T>(key: T -> int, a: seq<T>, b: seq<T>)
    requires Ordered(key, a) && Ordered(key, b) && multiset(a) == multiset(b)
    requires forall x, y | x in a && y in a && key(x) == key(y) :: x == y
    ensures a == b
  {
    assert |a| == |multiset(a)| == |b|;
    if a != [] {
      HeadsAgree(key, a, b);
      assert a[0] == b[0];
      TailOf(a);
      TailOf(b);
      OrderedIsUnique(key, a[1..], b[1..]);
    }
  }

  // Sorting forgets the order of its input and nothing else.
  lemma SortForgetsOrder<T>(key: T -> int, a: seq<T>, b: seq<T>)
    requires forall x, y | x in a && y in a && key(x) == key(y) :: x == y
    ensures SortBy(key, a) == SortBy(key, b) <==> multiset(a) == multiset(b)
  {
    SortSorts(key, a);
    SortSorts(key, b);
    if multiset(a) == multiset(b) {
      forall x, y | x in SortBy(key, a) && y in SortBy(key, a) && key(x) == key(y) ensures x == y {
        assert x in multiset(a) && y in multiset(a);
      }
      OrderedIsUnique(key, SortBy(key, a), SortBy(key, b));
    }
  }
}
