/** Selecting elements of a sequence: which ones, how often, and in what order. */
module Selection {

  /** The elements to keep. */
  function Filter<T>(s: seq<T>, keep: T -> bool): seq<T> {
    if s == [] then []
    else Filter(s[..|s| - 1], keep) + if keep(s[|s| - 1]) then [s[|s| - 1]] else []
  }

  lemma FilterAppend<T>(s: seq<T>, x: T, keep: T -> bool)
    ensures Filter(s + [x], keep) == Filter(s, keep) + if keep(x) then [x] else []
  {
    assert (s + [x])[..|s|] == s;
  }

  lemma {:induction false} FilterCons<T>(x: T, s: seq<T>, keep: T -> bool)
    ensures Filter([x] + s, keep) == (if keep(x) then [x] else []) + Filter(s, keep)
  {
    if s == [] {
      assert [x] + s == [] + [x];
      FilterAppend([], x, keep);
    } else {
      var init, last := s[..|s| - 1], s[|s| - 1];
      assert [x] + s == ([x] + init) + [last];
      FilterAppend([x] + init, last, keep);
      FilterCons(x, init, keep);
    }
  }

  lemma {:induction false} FilterMembers<T>(s: seq<T>, keep: T -> bool, x: T)
    ensures x in Filter(s, keep) <==> x in s && keep(x)
  {
    if s != [] {
      FilterMembers(s[..|s| - 1], keep, x);
      assert s == s[..|s| - 1] + [s[|s| - 1]];
    }
  }

  /** The position in the selection of an element kept: how many before it are kept. */
  function Place<T>(s: seq<T>, keep: T -> bool, i: nat): nat
    requires i <= |s|
  {
    if i == 0 then 0 else Place(s, keep, i - 1) + if keep(s[i - 1]) then 1 else 0
  }

  lemma {:induction false} PlacePrefix<T>(s: seq<T>, keep: T -> bool, n: nat, i: nat)
    requires i <= n <= |s|
    ensures Place(s[..n], keep, i) == Place(s, keep, i) <= Place(s, keep, n)
  {
    if i < n {
      PlacePrefix(s, keep, n - 1, i);
      PlaceOfPrefix(s, keep, n, i);
    } else if n > 0 {
      PlaceOfPrefix(s, keep, n, i);
    }
  }

  lemma {:induction false} PlaceOfPrefix<T>(s: seq<T>, keep: T -> bool, n: nat, i: nat)
    requires i <= n <= |s|
    ensures Place(s[..n], keep, i) == Place(s, keep, i)
  {
    if i > 0 {
      PlaceOfPrefix(s, keep, n, i - 1);
    }
  }

  /** Exactly the elements to keep are kept, each occurrence once and in order: what is kept of the elements before a
      position comes first, and an element to keep comes next. */
  lemma {:induction false} FilterPlaces<T>(s: seq<T>, keep: T -> bool, i: nat)
    requires i <= |s|
    ensures |Filter(s, keep)| == Place(s, keep, |s|) >= Place(s, keep, i)
    ensures Filter(s[..i], keep) == Filter(s, keep)[..Place(s, keep, i)]
    ensures i < |s| && keep(s[i]) ==>
      Place(s, keep, i) < |Filter(s, keep)| && Filter(s, keep)[Place(s, keep, i)] == s[i]
  {
    if s != [] {
      var n := |s| - 1;
      var init := s[..n];
      FilterPlaces(init, keep, if i < n then i else n);
      PlacePrefix(s, keep, n, if i < n then i else n);
      PlacePrefix(s, keep, n, n);
      if i <= n {
        assert init[..i] == s[..i];
      } else {
        assert s[..i] == s;
      }
    }
  }
}
