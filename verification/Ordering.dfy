/** Total orders, the sorted listing of a set, and stable insertion sort.

    Python's `sorted` is used in two ways by the release tool: to list the
    names of a directory (a set of distinct keys) and to order change fragments
    by a key.  `Listing` is the first, `Sort` the second. */
module Ordering {

  /** A relation that compares any two values and chains. */
  ghost predicate Preorder<T(!new)>(le: (T, T) -> bool) {
    && (forall x, y :: le(x, y) || le(y, x))
    && (forall x, y, z :: le(x, y) && le(y, z) ==> le(x, z))
  }

  ghost predicate TotalOrder<T(!new)>(le: (T, T) -> bool) {
    && Preorder(le)
    && (forall x, y :: le(x, y) && le(y, x) ==> x == y)
  }

  ghost predicate Sorted<T>(le: (T, T) -> bool, s: seq<T>) {
    forall i, j :: 0 <= i < j < |s| ==> le(s[i], s[j])
  }

  ghost predicate Distinct<T>(s: seq<T>) {
    forall i, j :: 0 <= i < j < |s| ==> s[i] != s[j]
  }

  // ---- The sorted listing of a set ----

  lemma {:induction false} LeastExists<T(!new)>(le: (T, T) -> bool, s: set<T>)
    requires Preorder(le) && s != {}
    ensures exists x :: x in s && forall y :: y in s ==> le(x, y)
    decreases |s|
  {
    var x :| x in s;
    if s == {x} {
      assert forall y :: y in s ==> le(x, y);
    } else {
      LeastExists(le, s - {x});
      var m :| m in s - {x} && forall y :: y in s - {x} ==> le(m, y);
      var least := if le(x, m) then x else m;
      assert forall y :: y in s ==> y == x || y in s - {x};
      assert least in s && forall y :: y in s ==> le(least, y);
    }
  }

  /** The least element. */
  function Least<T(!new, ==)>(le: (T, T) -> bool, s: set<T>): (x: T)
    requires TotalOrder(le) && s != {}
    ensures x in s && forall y :: y in s ==> le(x, y)
  {
    LeastExists(le, s);
    var x :| x in s && forall y | y in s :: le(x, y);
    x
  }

  lemma LeastUnique<T(!new)>(le: (T, T) -> bool, s: set<T>, h: T)
    requires TotalOrder(le) && h in s && forall y :: y in s ==> le(h, y)
    ensures Least(le, s) == h
  {
    assert le(Least(le, s), h) && le(h, Least(le, s));
  }

  /** The elements of `s`, each once, in ascending order. */
  function Listing<T(!new, ==)>(le: (T, T) -> bool, s: set<T>): (r: seq<T>)
    requires TotalOrder(le)
    ensures forall x :: x in r <==> x in s
    decreases |s|
  {
    if s == {} then [] else [Least(le, s)] + Listing(le, s - {Least(le, s)})
  }

  lemma {:induction false} ListingSorted<T(!new)>(le: (T, T) -> bool, s: set<T>)
    requires TotalOrder(le)
    ensures Sorted(le, Listing(le, s)) && Distinct(Listing(le, s))
    decreases |s|
  {
    if s != {} {
      var h := Least(le, s);
      var rest := Listing(le, s - {h});
      ListingSorted(le, s - {h});
      assert Listing(le, s) == [h] + rest;
      assert forall i :: 0 <= i < |rest| ==> rest[i] in rest && rest[i] in s - {h};
    }
  }

  function Without<T(==)>(s: seq<T>, x: T): seq<T> {
    if s == [] then [] else (if s[0] == x then [] else [s[0]]) + Without(s[1..], x)
  }

  lemma WithoutCons<T>(h: T, s: seq<T>, x: T)
    ensures Without([h] + s, x) == (if h == x then [] else [h]) + Without(s, x)
  {
    assert ([h] + s)[1..] == s;
  }

  lemma WithoutAbsent<T>(s: seq<T>, x: T)
    requires x !in s
    ensures Without(s, x) == s
  {
  }

  /** Dropping one element of a listing gives the listing of the smaller set. */
  lemma {:induction false} ListingWithout<T(!new)>(le: (T, T) -> bool, s: set<T>, x: T)
    requires TotalOrder(le)
    ensures Without(Listing(le, s), x) == Listing(le, s - {x})
    decreases |s|
  {
    if x !in s {
      assert s - {x} == s;
      WithoutAbsent(Listing(le, s), x);
    } else {
      var h := Least(le, s);
      var rest := Listing(le, s - {h});
      WithoutCons(h, rest, x);
      if h == x {
        WithoutAbsent(rest, x);
      } else {
        ListingWithout(le, s - {h}, x);
        assert Listing(le, s - {x}) == [h] + Listing(le, s - {x} - {h}) by { LeastUnique(le, s - {x}, h); }
        assert s - {h} - {x} == s - {x} - {h};
      }
    }
  }

  // ---- Stable insertion sort ----

  function Insert<T>(le: (T, T) -> bool, x: T, s: seq<T>): seq<T> {
    if s == [] || le(x, s[0]) then [x] + s else [s[0]] + Insert(le, x, s[1..])
  }

  /** `sorted(s, key=...)`: the key comparison is `le`; equal keys keep their order. */
  function Sort<T>(le: (T, T) -> bool, s: seq<T>): seq<T> {
    if s == [] then [] else Insert(le, s[0], Sort(le, s[1..]))
  }

  lemma {:induction false} InsertPermutes<T>(le: (T, T) -> bool, x: T, s: seq<T>)
    ensures multiset(Insert(le, x, s)) == multiset([x]) + multiset(s)
  {
    if s == [] || le(x, s[0]) {
    } else {
      InsertPermutes(le, x, s[1..]);
      assert s == [s[0]] + s[1..];
    }
  }

  lemma {:induction false} InsertSorted<T(!new)>(le: (T, T) -> bool, x: T, s: seq<T>)
    requires Preorder(le) && Sorted(le, s)
    ensures Sorted(le, Insert(le, x, s))
  {
    if s == [] || le(x, s[0]) {
    } else {
      InsertSorted(le, x, s[1..]);
      var r := Insert(le, x, s[1..]);
      InsertPermutes(le, x, s[1..]);
      forall y | y in r ensures le(s[0], y) {
        assert y in multiset(r);
        if y != x { assert y in multiset(s[1..]); }
      }
    }
  }

  /** Sorting yields the same elements, with the same multiplicities, in order. */
  lemma {:induction false} SortCorrect<T(!new)>(le: (T, T) -> bool, s: seq<T>)
    requires Preorder(le)
    ensures Sorted(le, Sort(le, s))
    ensures multiset(Sort(le, s)) == multiset(s)
  {
    if s == [] {
    } else {
      SortCorrect(le, s[1..]);
      InsertSorted(le, s[0], Sort(le, s[1..]));
      InsertPermutes(le, s[0], Sort(le, s[1..]));
      assert s == [s[0]] + s[1..];
    }
  }

  lemma HeadIsLeast<T(!new)>(le: (T, T) -> bool, s: seq<T>, x: T)
    requires Preorder(le) && Sorted(le, s) && x in s
    ensures le(s[0], x)
  {
    var i :| 0 <= i < |s| && s[i] == x;
    assert le(x, x) && (i == 0 || le(s[0], s[i]));
  }

  /** Two sorted arrangements of one collection agree when its elements can be told apart by the order. */
  lemma {:induction false} SortedArrangementUnique<T(!new)>(le: (T, T) -> bool, a: seq<T>, b: seq<T>)
    requires Preorder(le) && Sorted(le, a) && Sorted(le, b)
    requires multiset(a) == multiset(b)
    requires forall x, y :: x in multiset(a) && y in multiset(a) && le(x, y) && le(y, x) ==> x == y
    ensures a == b
  {
    assert |multiset(a)| == |a| && |multiset(b)| == |b|;
    if a != [] {
      var x, y := a[0], b[0];
      assert x == y by {
        assert x in multiset(b) && y in multiset(a);
        HeadIsLeast(le, b, x);
        HeadIsLeast(le, a, y);
      }
      assert multiset(a[1..]) == multiset(a) - multiset{x} by { assert a == [x] + a[1..]; }
      assert multiset(b[1..]) == multiset(b) - multiset{x} by { assert b == [x] + b[1..]; }
      SortedArrangementUnique(le, a[1..], b[1..]);
      assert a == [x] + a[1..] && b == [x] + b[1..];
    }
  }

  // ---- Orders on text and on pairs ----

  /** Code-point order of two strings. */
  predicate TextLe(a: string, b: string) {
    a == [] || (b != [] && (a[0] < b[0] || (a[0] == b[0] && TextLe(a[1..], b[1..]))))
  }

  lemma {:induction false} TextLeTransitive(a: string, b: string, c: string)
    requires TextLe(a, b) && TextLe(b, c)
    ensures TextLe(a, c)
  {
    if a != [] && a[0] == b[0] && b[0] == c[0] {
      TextLeTransitive(a[1..], b[1..], c[1..]);
    }
  }

  lemma {:induction false} TextLeTotal(a: string, b: string)
    ensures TextLe(a, b) || TextLe(b, a)
    ensures TextLe(a, b) && TextLe(b, a) ==> a == b
  {
    if a != [] && b != [] && a[0] == b[0] {
      TextLeTotal(a[1..], b[1..]);
      assert a == [a[0]] + a[1..] && b == [b[0]] + b[1..];
    }
  }

  lemma TextOrder()
    ensures TotalOrder(TextLe)
  {
    forall a, b ensures (TextLe(a, b) || TextLe(b, a)) && (TextLe(a, b) && TextLe(b, a) ==> a == b) {
      TextLeTotal(a, b);
    }
    forall a, b, c | TextLe(a, b) && TextLe(b, c) ensures TextLe(a, c) {
      TextLeTransitive(a, b, c);
    }
  }

  /** The one text comes first if it is a prefix of the other, or smaller where they first differ. */
  lemma {:induction false} TextLeMeans(a: string, b: string)
    ensures TextLe(a, b) <==>
      a <= b || exists k :: 0 <= k < |a| && k < |b| && a[..k] == b[..k] && a[k] < b[k]
  {
    if a != [] && b != [] && a[0] == b[0] {
      var x, y := a[1..], b[1..];
      TextLeMeans(x, y);
      assert a == [a[0]] + x && b == [b[0]] + y;
      assert a <= b <==> x <= y;
      if k :| 0 <= k < |x| && k < |y| && x[..k] == y[..k] && x[k] < y[k] {
        assert a[..k + 1] == [a[0]] + x[..k] && b[..k + 1] == [b[0]] + y[..k];
        assert a[k + 1] < b[k + 1];
      }
      if k :| 0 <= k < |a| && k < |b| && a[..k] == b[..k] && a[k] < b[k] {
        assert k > 0;
        assert x[..k - 1] == a[..k][1..] && y[..k - 1] == b[..k][1..];
        assert x[k - 1] < y[k - 1];
      }
    } else if a != [] && b != [] && a[0] < b[0] {
      assert a[..0] == b[..0];
    }
  }
}
