/** Python's sorted with a key: a permutation in ascending order. */
module Sorting {
  predicate Ascending<T>(s: seq<T>, key: T -> int) {
    forall i, j :: 0 <= i < j < |s| ==> key(s[i]) <= key(s[j])
  }

  function Insert<T>(x: T, s: seq<T>, key: T -> int): (r: seq<T>) {
    if s == [] then [x]
    else if key(x) <= key(s[0]) then [x] + s
    else [s[0]] + Insert(x, s[1..], key)
  }

  /** sorted(s, key=key) */
  function SortBy<T>(s: seq<T>, key: T -> int): (r: seq<T>) {
    if s == [] then [] else Insert(s[0], SortBy(s[1..], key), key)
  }

  /** The elements of one key, in order. */
  function OfKey<T>(s: seq<T>, key: T -> int, v: int): seq<T> {
    if s == [] then [] else (if key(s[0]) == v then [s[0]] else []) + OfKey(s[1..], key, v)
  }

  lemma {:induction false} InsertStable<T>(x: T, s: seq<T>, key: T -> int, v: int)
    ensures OfKey(Insert(x, s, key), key, v) == (if key(x) == v then [x] else []) + OfKey(s, key, v)
  {
    OfKeyCons(x, s, key, v);
    if s != [] && key(x) > key(s[0]) {
      var first, rest := s[0], s[1..];
      InsertBehind(x, s, key);
      hide *;
      InsertStable(x, rest, key, v);
      OfKeyCons(first, rest, key, v);
      OfKeyCons(first, Insert(x, rest, key), key, v);
      NotBoth(x, first, OfKey(rest, key, v), key, v);
    }
  }

  lemma InsertBehind<T>(x: T, s: seq<T>, key: T -> int)
    requires s != [] && key(x) > key(s[0])
    ensures Insert(x, s, key) == [s[0]] + Insert(x, s[1..], key) && s == [s[0]] + s[1..]
  {
  }

  lemma NotBoth<T>(x: T, y: T, s: seq<T>, key: T -> int, v: int)
    requires key(x) != key(y)
    ensures var a, b := if key(x) == v then [x] else [], if key(y) == v then [y] else []; a + (b + s) == b + (a + s)
  {
  }

  lemma OfKeyCons<T>(x: T, s: seq<T>, key: T -> int, v: int)
    ensures OfKey([x] + s, key, v) == (if key(x) == v then [x] else []) + OfKey(s, key, v)
  {
    assert ([x] + s)[1..] == s;
  }

  /** Elements of equal keys stay in order. */
  lemma {:induction false} SortByStable<T>(s: seq<T>, key: T -> int, v: int)
    ensures OfKey(SortBy(s, key), key, v) == OfKey(s, key, v)
  {
    if s != [] {
      SortByStable(s[1..], key, v);
      InsertStable(s[0], SortBy(s[1..], key), key, v);
    }
  }

  ghost predicate AtLeast<T>(k: int, s: seq<T>, key: T -> int) {
    forall i :: 0 <= i < |s| ==> k <= key(s[i])
  }

  lemma AscendingFirst<T>(x: T, s: seq<T>, key: T -> int)
    ensures Ascending([x] + s, key) <==> Ascending(s, key) && AtLeast(key(x), s, key)
  {
    var all := [x] + s;
    assert forall i :: 0 <= i < |s| ==> all[i + 1] == s[i];
    if Ascending(all, key) {
      forall i, j | 0 <= i < j < |s| ensures key(s[i]) <= key(s[j]) {
        assert all[i + 1] == s[i] && all[j + 1] == s[j];
      }
      forall i | 0 <= i < |s| ensures key(x) <= key(s[i]) {
        assert all[0] == x && all[i + 1] == s[i];
      }
    }
  }

  lemma AtLeastFirst<T>(k: int, x: T, s: seq<T>, key: T -> int)
    ensures AtLeast(k, [x] + s, key) <==> k <= key(x) && AtLeast(k, s, key)
  {
    var all := [x] + s;
    assert all[0] == x && forall i :: 0 <= i < |s| ==> all[i + 1] == s[i];
  }

  lemma {:induction false} InsertElements<T>(x: T, s: seq<T>, key: T -> int)
    ensures multiset(Insert(x, s, key)) == multiset(s) + multiset{x}
  {
    if s != [] {
      assert s == [s[0]] + s[1..];
      InsertElements(x, s[1..], key);
    }
  }

  lemma {:induction false} InsertAtLeast<T>(k: int, x: T, s: seq<T>, key: T -> int)
    ensures AtLeast(k, Insert(x, s, key), key) <==> k <= key(x) && AtLeast(k, s, key)
  {
    AtLeastFirst(k, x, s, key);
    if s != [] {
      assert s == [s[0]] + s[1..];
      AtLeastFirst(k, s[0], s[1..], key);
      InsertAtLeast(k, x, s[1..], key);
      AtLeastFirst(k, s[0], Insert(x, s[1..], key), key);
      hide AtLeast;
    }
  }

  lemma {:induction false} InsertAscending<T>(x: T, s: seq<T>, key: T -> int)
    requires Ascending(s, key)
    ensures Ascending(Insert(x, s, key), key)
  {
    if s != [] {
      var rest := s[1..];
      assert s == [s[0]] + rest;
      AscendingFirst(s[0], rest, key);
      AscendingFirst(x, s, key);
      AtLeastFirst(key(x), s[0], rest, key);
      if key(x) > key(s[0]) {
        InsertAscending(x, rest, key);
        InsertAtLeast(key(s[0]), x, rest, key);
        AscendingFirst(s[0], Insert(x, rest, key), key);
      } else {
        Weaker(key(x), key(s[0]), rest, key);
      }
      hide Ascending, AtLeast;
    }
  }

  lemma Weaker<T>(k: int, m: int, s: seq<T>, key: T -> int)
    requires AtLeast(m, s, key) && k <= m
    ensures AtLeast(k, s, key)
  {
  }

  /** A permutation in ascending order. */
  lemma {:induction false} SortBySpec<T>(s: seq<T>, key: T -> int)
    ensures multiset(SortBy(s, key)) == multiset(s) && Ascending(SortBy(s, key), key)
  {
    if s != [] {
      SortBySpec(s[1..], key);
      InsertElements(s[0], SortBy(s[1..], key), key);
      InsertAscending(s[0], SortBy(s[1..], key), key);
      assert s == [s[0]] + s[1..];
      hide Ascending;
    }
  }

  lemma SameElements<T>(a: seq<T>, b: seq<T>)
    requires multiset(a) == multiset(b)
    ensures |a| == |b| && forall x :: x in a <==> x in b
  {
    assert |multiset(a)| == |a| && |multiset(b)| == |b|;
    assert forall x :: x in a <==> x in multiset(a);
    assert forall x :: x in b <==> x in multiset(b);
  }

  // ── lists without repetition ───────────────────────────────────

  predicate Distinct(s: seq<int>) {
    forall i, j :: 0 <= i < j < |s| ==> s[i] != s[j]
  }

  ghost function Elems(s: seq<int>): set<int> {
    set k | k in s
  }

  lemma DistinctSnoc(s: seq<int>, k: int)
    requires Distinct(s)
    ensures k in Elems(s) <==> k in s
    ensures k !in s ==> Distinct(s + [k]) && Elems(s + [k]) == Elems(s) + {k}
  {
  }

  lemma {:induction false} DistinctIff(s: seq<int>)
    ensures |Elems(s)| <= |s| && (Distinct(s) <==> |Elems(s)| == |s|)
  {
    if s != [] {
      var front, last := s[..|s| - 1], s[|s| - 1];
      DistinctIff(front);
      assert s == front + [last];
      assert Elems(s) == Elems(front) + {last};
      if last in front {
        var i :| 0 <= i < |front| && front[i] == last;
        assert s[i] == s[|s| - 1];
        assert Elems(s) == Elems(front);
      } else {
        assert |Elems(s)| == |Elems(front)| + 1;
      }
    }
  }
}
