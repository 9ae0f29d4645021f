/** Python's `sorted(..., key=...)`: stable, by an integer key. */
module Ordering {

  ghost predicate Ascending<T>(s: seq<T>, key: T -> int) {
    forall i, j :: 0 <= i < j < |s| ==> key(s[i]) <= key(s[j])
  }

  /** In front of the first element whose key is not smaller. */
  function Insert<T(==)>(x: T, s: seq<T>, key: T -> int): (r: seq<T>)
    ensures multiset(r) == multiset(s) + multiset{x}
  {
    if s == [] || key(x) <= key(s[0]) then
      [x] + s
    else
      assert s == [s[0]] + s[1..];
      [s[0]] + Insert(x, s[1..], key)
  }

  lemma {:induction false} InsertAscends<T>(x: T, s: seq<T>, key: T -> int)
    requires Ascending(s, key)
    ensures Ascending(Insert(x, s, key), key)
  {
    if s != [] && key(s[0]) < key(x) {
      InsertAscends(x, s[1..], key);
      var r := Insert(x, s[1..], key);
      forall j | 0 <= j < |r| ensures key(s[0]) <= key(r[j]) {
        assert r[j] in multiset(s[1..]) + multiset{x};
        assert r[j] == x || r[j] in s[1..];
      }
    }
  }

  function SortBy<T(==)>(s: seq<T>, key: T -> int): (r: seq<T>)
    ensures Ascending(r, key) && multiset(r) == multiset(s) && |r| == |s|
  {
    if s == [] then []
    else
      var rest := SortBy(s[1..], key);
      InsertAscends(s[0], rest, key);
      assert s == [s[0]] + s[1..];
      assert |Insert(s[0], rest, key)| == |multiset(Insert(s[0], rest, key))|;
      Insert(s[0], rest, key)
  }

  /** The elements with one key, in their order. */
  function WithKey<T>(s: seq<T>, key: T -> int, k: int): seq<T> {
    if s == [] then [] else (if key(s[0]) == k then [s[0]] else []) + WithKey(s[1..], key, k)
  }

  lemma {:induction false} InsertInFront<T>(x: T, s: seq<T>, key: T -> int, k: int)
    requires Ascending(s, key)
    ensures WithKey(Insert(x, s, key), key, k) == (if key(x) == k then [x] else []) + WithKey(s, key, k)
  {
    if s != [] && key(s[0]) < key(x) {
      InsertInFront(x, s[1..], key, k);
      var r := Insert(x, s, key);
      assert r[0] == s[0] && r[1..] == Insert(x, s[1..], key);
    } else {
      assert Insert(x, s, key)[1..] == s;
    }
  }

  /** Sorting is stable: elements with one key keep their order. */
  lemma {:induction false} SortIsStable<T>(s: seq<T>, key: T -> int, k: int)
    ensures WithKey(SortBy(s, key), key, k) == WithKey(s, key, k)
  {
    if s != [] {
      SortIsStable(s[1..], key, k);
      InsertInFront(s[0], SortBy(s[1..], key), key, k);
    }
  }

  ghost predicate KeysDistinct<T(!new)>(s: seq<T>, key: T -> int) {
    forall x, y :: x in s && y in s && key(x) == key(y) ==> x == y
  }

  lemma HeadIsLeast<T>(a: seq<T>, key: T -> int, x: T)
    requires Ascending(a, key) && x in multiset(a)
    ensures a != [] && key(a[0]) <= key(x)
  {
    var i :| 0 <= i < |a| && a[i] == x;
  }

  lemma HeadsAgree<T(!new)>(a: seq<T>, b: seq<T>, key: T -> int)
    requires Ascending(a, key) && Ascending(b, key) && multiset(a) == multiset(b) && KeysDistinct(a, key) && a != []
    ensures b != [] && a[0] == b[0]
  {
    var x := a[0];
    assert x in multiset(b);
    HeadIsLeast(b, key, x);
    var y := b[0];
    assert y in multiset(a);
    HeadIsLeast(a, key, y);
    assert x in a && y in a;
  }

  lemma TailOf<T(!new)>(a: seq<T>, key: T -> int)
    requires a != [] && Ascending(a, key) && KeysDistinct(a, key)
    ensures multiset(a[1..]) == multiset(a) - multiset{a[0]} && Ascending(a[1..], key) && KeysDistinct(a[1..], key)
  {
    assert a == [a[0]] + a[1..];
    forall x, y | x in a[1..] && y in a[1..] && key(x) == key(y) ensures x == y { assert x in a && y in a; }
  }

  lemma SameMembers<T(!new)>(a: seq<T>, b: seq<T>, key: T -> int)
    requires multiset(a) == multiset(b) && KeysDistinct(a, key)
    ensures KeysDistinct(b, key)
  {
    forall x | x in b ensures x in a { assert x in multiset(b); assert x in multiset(a); }
  }

  lemma SameLength<T>(a: seq<T>, b: seq<T>)
    requires multiset(a) == multiset(b)
    ensures |a| == |b|
  {
    assert |a| == |multiset(a)| == |multiset(b)| == |b|;
  }

  lemma TailsAgree<T(!new)>(a: seq<T>, b: seq<T>, key: T -> int)
    requires Ascending(a, key) && Ascending(b, key) && multiset(a) == multiset(b) && KeysDistinct(a, key) && a != []
    ensures b != [] && a[0] == b[0] && multiset(a[1..]) == multiset(b[1..])
    ensures Ascending(a[1..], key) && Ascending(b[1..], key) && KeysDistinct(a[1..], key)
  {
    HeadsAgree(a, b, key);
    SameMembers(a, b, key);
    TailOf(a, key);
    TailOf(b, key);
  }

  /** Sorting forgets the order of arrival as long as equal keys mean equal elements. */
  lemma {:induction false} AscendingIsUnique<T(!new)>(a: seq<T>, b: seq<T>, key: T -> int)
    requires Ascending(a, key) && Ascending(b, key) && multiset(a) == multiset(b) && KeysDistinct(a, key)
    ensures a == b
    decreases |a|
  {
    if a == [] {
      SameLength(a, b);
    } else {
      TailsAgree(a, b, key);
      AscendingIsUnique(a[1..], b[1..], key);
      assert a == [a[0]] + a[1..] && b == [b[0]] + b[1..];
    }
  }

  lemma SortIgnoresArrival<T(!new)>(a: seq<T>, b: seq<T>, key: T -> int)
    requires multiset(a) == multiset(b) && KeysDistinct(a, key)
    ensures SortBy(a, key) == SortBy(b, key)
  {
    var r := SortBy(a, key);
    SameMembers(a, r, key);
    AscendingIsUnique(r, SortBy(b, key), key);
  }

  lemma SortKeepsMembers<T>(s: seq<T>, key: T -> int, x: T)
    ensures x in SortBy(s, key) <==> x in s
  {
    assert x in multiset(SortBy(s, key)) <==> x in multiset(s);
  }

  lemma LastIsGreatest<T>(a: seq<T>, key: T -> int, x: T)
    requires Ascending(a, key) && x in multiset(a)
    ensures a != [] && key(x) <= key(a[|a| - 1])
  {
    var i :| 0 <= i < |a| && a[i] == x;
  }

  /** A sorted list starts at the least key and ends at the greatest. */
  lemma EndsOf<T>(r: seq<T>, s: seq<T>, key: T -> int, x: T)
    requires Ascending(r, key) && multiset(r) == multiset(s) && x in s
    ensures r != [] && r[0] in s && r[|r| - 1] in s && key(r[0]) <= key(x) <= key(r[|r| - 1])
  {
    assert x in multiset(r);
    HeadIsLeast(r, key, x);
    LastIsGreatest(r, key, x);
    assert r[0] in multiset(s) && r[|r| - 1] in multiset(s);
  }
}
