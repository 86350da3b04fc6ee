/**
 stratified_sample_cases of memory2/eval_public_long_memory.py:109-165.  Category and source names are
 numbers here: the code only compares them.
 */
module Stratified {
  import opened Text
  import opened Apportion
  import opened Sorting

  datatype Case = Case(source: nat, category: nat, body: string)

  /** The generator's shuffle, one permutation per call. */
  type Shuffle = (nat, seq<Case>) -> seq<Case>

  ghost predicate Shuffles(shuffle: Shuffle) {
    forall k, s :: multiset(shuffle(k, s)) == multiset(s)
  }

  // ── grouping ───────────────────────────────────────────────────

  /** The cases of one category, in order. */
  function Rows(cases: seq<Case>, c: nat): seq<Case> {
    if cases == [] then []
    else
      var last := cases[|cases| - 1];
      Rows(cases[..|cases| - 1], c) + if last.category == c then [last] else []
  }

  lemma {:induction false} RowsAre(cases: seq<Case>, c: nat)
    ensures forall x :: x in Rows(cases, c) <==> x in cases && x.category == c
  {
    if cases != [] {
      RowsAre(cases[..|cases| - 1], c);
      assert cases == cases[..|cases| - 1] + [cases[|cases| - 1]];
    }
  }

  lemma {:induction false} RowsAdd(a: seq<Case>, b: seq<Case>, c: nat)
    ensures Rows(a + b, c) == Rows(a, c) + Rows(b, c)
  {
    if b == [] {
      assert a + b == a;
    } else {
      RowsAdd(a, b[..|b| - 1], c);
      assert (a + b)[..|a + b| - 1] == a + b[..|b| - 1];
    }
  }

  /** A group of one category is its own rows, and has none of any other. */
  lemma {:induction false} RowsOfGroup(g: seq<Case>, c: nat, d: nat)
    requires forall x :: x in g ==> x.category == c
    ensures Rows(g, d) == if d == c then g else []
  {
    if g != [] {
      RowsOfGroup(g[..|g| - 1], c, d);
      assert g == g[..|g| - 1] + [g[|g| - 1]];
      assert g[|g| - 1] in g;
    }
  }

  lemma {:induction false} RowsKeepCount(cases: seq<Case>, x: Case)
    ensures multiset(Rows(cases, x.category))[x] == multiset(cases)[x]
  {
    if cases != [] {
      RowsKeepCount(cases[..|cases| - 1], x);
      assert cases == cases[..|cases| - 1] + [cases[|cases| - 1]];
    }
  }

  ghost function CategoriesOf(cases: seq<Case>): set<nat> {
    set x | x in cases :: x.category
  }

  /** The categories, each once. */
  ghost predicate AreCategories(cats: seq<nat>, cases: seq<Case>) {
    Distinct(cats) && Elems(cats) == CategoriesOf(cases)
  }

  lemma SortedCategories(keys: seq<nat>, cats: seq<nat>, cases: seq<Case>)
    requires AreCategories(keys, cases) && multiset(cats) == multiset(keys)
    ensures AreCategories(cats, cases) && |cats| == |CategoriesOf(cases)|
  {
    SameElements(cats, keys);
    DistinctIff(cats);
    DistinctIff(keys);
    hide Distinct;
    assert Elems(cats) == Elems(keys);
  }

  function Sizes(cats: seq<nat>, cases: seq<Case>): (n: seq<int>)
    ensures |n| == |cats| && forall i :: 0 <= i < |cats| ==> n[i] == |Rows(cases, cats[i])|
  {
    seq(|cats|, i requires 0 <= i < |cats| => |Rows(cases, cats[i])|)
  }

  /** Every case is in exactly one category. */
  lemma {:induction false} SizesSum(cats: seq<nat>, cases: seq<Case>)
    requires Distinct(cats) && forall x :: x in cases ==> x.category in cats
    ensures Sum(Sizes(cats, cases)) == |cases|
  {
    var n := Sizes(cats, cases);
    if cases == [] {
      SumZero(n);
    } else {
      var front, last := cases[..|cases| - 1], cases[|cases| - 1];
      SizesSum(cats, front);
      var m := Sizes(cats, front);
      assert last in cases;
      var k :| 0 <= k < |cats| && cats[k] == last.category;
      assert n == m[k := m[k] + 1];
      SumUpdate(m, k, m[k] + 1);
    }
  }

  lemma {:induction false} SumZero(a: seq<int>)
    requires forall i :: 0 <= i < |a| ==> a[i] == 0
    ensures Sum(a) == 0
  {
    if a != [] {
      SumZero(a[..|a| - 1]);
    }
  }

  /** by_category after some cases */
  ghost predicate Grouped(groups: map<nat, seq<Case>>, cases: seq<Case>) {
    && (forall c :: c in groups ==> groups[c] == Rows(cases, c) && groups[c] != [])
    && (forall c :: c !in groups ==> Rows(cases, c) == [])
  }

  /** by_category.setdefault(case.category, []).append(case) */
  function AddCase(groups: map<nat, seq<Case>>, x: Case): map<nat, seq<Case>> {
    groups[x.category := (if x.category in groups then groups[x.category] else []) + [x]]
  }

  lemma GroupStep(groups: map<nat, seq<Case>>, cases: seq<Case>, x: Case)
    requires Grouped(groups, cases)
    ensures Grouped(AddCase(groups, x), cases + [x]) && AddCase(groups, x).Keys == groups.Keys + {x.category}
  {
    var all := cases + [x];
    assert all[..|all| - 1] == cases;
    assert forall c :: Rows(all, c) == Rows(cases, c) + if x.category == c then [x] else [];
    hide Rows;
  }

  lemma GroupedKeys(groups: map<nat, seq<Case>>, cases: seq<Case>)
    requires Grouped(groups, cases)
    ensures groups.Keys == CategoriesOf(cases)
  {
    forall c ensures c in groups <==> c in CategoriesOf(cases) {
      RowsAre(cases, c);
      hide Rows;
      if c in groups {
        assert groups[c][0] in Rows(cases, c);
      }
      if c in CategoriesOf(cases) {
        var x :| x in cases && x.category == c;
        assert x in Rows(cases, c);
      }
    }
  }

  /** by_category, and its keys in insertion order */
  method Group(cases: seq<Case>) returns (groups: map<nat, seq<Case>>, keys: seq<nat>)
    ensures AreCategories(keys, cases) && forall c :: c in groups <==> c in keys
    ensures forall c :: c in groups ==> groups[c] == Rows(cases, c)
  {
    groups, keys := map[], [];
    assert Grouped(groups, []) && Distinct(keys) && Elems(keys) == {};
    hide Grouped, Distinct, Elems, AddCase;
    for i := 0 to |cases|
      invariant Grouped(groups, cases[..i]) && Distinct(keys) && Elems(keys) == groups.Keys
    {
      var x := cases[i];
      assert cases[..i + 1] == cases[..i] + [x];
      GroupStep(groups, cases[..i], x);
      DistinctSnoc(keys, x.category);
      if x.category !in groups {
        keys := keys + [x.category];
      }
      groups := AddCase(groups, x);
    }
    assert cases[..|cases|] == cases;
    GroupedKeys(groups, cases);
    GroupedRows(groups, keys, cases);
  }

  lemma GroupedRows(groups: map<nat, seq<Case>>, keys: seq<nat>, cases: seq<Case>)
    requires Grouped(groups, cases) && Elems(keys) == groups.Keys
    ensures forall c :: c in groups <==> c in keys
    ensures forall c :: c in groups ==> groups[c] == Rows(cases, c)
  {
    assert forall c :: c in Elems(keys) <==> c in keys;
    assert forall c :: c in groups.Keys <==> c in groups;
  }

  // ── the sample ─────────────────────────────────────────────────

  /** The first k of the category's cases, sorted by source and shuffled by the generator's call. */
  ghost predicate Drawn(picked: seq<Case>, rows: seq<Case>, k: int, call: nat, shuffle: Shuffle) {
    var mixed := shuffle(call, SortBy(rows, (x: Case) => x.source));
    0 <= k <= |mixed| && multiset(picked) == multiset(mixed[..k])
  }

  /** What was taken from one category: as many of its cases, none twice, as drawn. */
  ghost predicate TakenFrom(sample: seq<Case>, cases: seq<Case>, c: nat, k: int, call: nat, shuffle: Shuffle) {
    && |Rows(sample, c)| == k && multiset(Rows(sample, c)) <= multiset(Rows(cases, c))
    && Drawn(Rows(sample, c), Rows(cases, c), k, call, shuffle)
  }

  predicate InOrder(s: seq<Case>) {
    forall i, j :: 0 <= i < j < |s| ==>
      s[i].category < s[j].category || (s[i].category == s[j].category && s[i].source <= s[j].source)
  }

  /** The body of the last loop for one category. */
  method PickFrom(rows: seq<Case>, k: nat, call: nat, shuffle: Shuffle) returns (picked: seq<Case>)
    requires Shuffles(shuffle) && k <= |rows|
    ensures |picked| == k && multiset(picked) <= multiset(rows) && Ascending(picked, (x: Case) => x.source)
    ensures Drawn(picked, rows, k, call, shuffle)
  {
    SortBySpec(rows, (x: Case) => x.source);
    var sorted := SortBy(rows, (x: Case) => x.source);
    var mixed := shuffle(call, sorted);
    SameElements(mixed, rows);
    assert mixed == mixed[..k] + mixed[k..];
    SortBySpec(mixed[..k], (x: Case) => x.source);
    picked := SortBy(mixed[..k], (x: Case) => x.source);
    SameElements(picked, mixed[..k]);
  }

  lemma SampleGrows(sample: seq<Case>, picked: seq<Case>, cases: seq<Case>, cats: seq<nat>, i: nat)
    requires Ascending(cats, (c: nat) => c) && Distinct(cats) && i < |cats| && InOrder(sample)
    requires forall x :: x in sample ==> x.category in cats[..i]
    requires multiset(picked) <= multiset(Rows(cases, cats[i])) && Ascending(picked, (x: Case) => x.source)
    ensures InOrder(sample + picked) && forall x :: x in sample + picked ==> x.category in cats[..i + 1]
    ensures Rows(sample + picked, cats[i]) == picked
    ensures forall k :: 0 <= k < |cats| && k != i ==> Rows(sample + picked, cats[k]) == Rows(sample, cats[k])
  {
    RowsAre(cases, cats[i]);
    forall x | x in picked ensures x.category == cats[i] {
      assert x in multiset(picked);
      assert x in multiset(Rows(cases, cats[i]));
    }
    forall k | 0 <= k < |cats| ensures Rows(sample + picked, cats[k]) == Rows(sample, cats[k]) + if k == i then picked else [] {
      RowsAdd(sample, picked, cats[k]);
      RowsOfGroup(picked, cats[i], cats[k]);
    }
    RowsAre(sample, cats[i]);
    assert forall x :: x in Rows(sample, cats[i]) ==> x in Rows(sample, cats[i]) && cats[i] in cats[..i];
    assert Rows(sample, cats[i]) == [];
    OrderGrows(sample, picked, cats, i);
  }

  lemma OrderGrows(sample: seq<Case>, picked: seq<Case>, cats: seq<nat>, i: nat)
    requires Ascending(cats, (c: nat) => c) && Distinct(cats) && i < |cats| && InOrder(sample)
    requires forall x :: x in sample ==> x.category in cats[..i]
    requires forall x :: x in picked ==> x.category == cats[i]
    requires Ascending(picked, (x: Case) => x.source)
    ensures InOrder(sample + picked) && forall x :: x in sample + picked ==> x.category in cats[..i + 1]
  {
    assert forall x :: x in sample ==> x.category < cats[i] && x.category in cats[..i + 1];
    assert cats[i] in cats[..i + 1];
    var all, n := sample + picked, |sample|;
    assert forall a :: 0 <= a < n ==> all[a] == sample[a] && sample[a] in sample;
    assert forall a :: n <= a < |all| ==> all[a] == picked[a - n] && picked[a - n] in picked;
  }

  /** The sample has no case more often than the cases do. */
  lemma SampleIsPart(sample: seq<Case>, cases: seq<Case>)
    requires forall c :: multiset(Rows(sample, c)) <= multiset(Rows(cases, c))
    ensures multiset(sample) <= multiset(cases)
  {
    forall x ensures multiset(sample)[x] <= multiset(cases)[x] {
      RowsKeepCount(sample, x);
      RowsKeepCount(cases, x);
      assert multiset(Rows(sample, x.category)) <= multiset(Rows(cases, x.category));
    }
  }

  /** The category's part of the sample is as large as the allocation allows. */
  ghost predicate FairFor(c: nat, sample: seq<Case>, cases: seq<Case>, size: int) {
    Fits(|Rows(sample, c)|, |Rows(cases, c)|, size, |cases|)
  }

  /** The allocation over the categories found. */
  method AllocateSeats(cases: seq<Case>, groups: map<nat, seq<Case>>, cats: seq<nat>, size: int)
    returns (a: seq<int>, ghost course: seq<seq<int>>)
    requires AreCategories(cats, cases) && |cats| <= size < |cases|
    requires forall i :: 0 <= i < |cats| ==> cats[i] in groups && groups[cats[i]] == Rows(cases, cats[i])
    ensures AllFit(a, Sizes(cats, cases), size, |cases|) && Sum(a) == size
    ensures |a| == |cats| && forall i :: 0 <= i < |cats| ==> 1 <= a[i] <= |Rows(cases, cats[i])|
    ensures Course(Sizes(cats, cases), size, |cases|, course) && course[|course| - 1] == a
  {
    CoversAll(cats, cases);
    SizesSum(cats, cases);
    SizesPositive(cats, cases);
    hide Rows, Distinct, AllFit, CategoriesOf, Sum, Course;
    var sizes := seq(|cats|, i requires 0 <= i < |cats| => |groups[cats[i]]|);
    assert sizes == Sizes(cats, cases);
    a, course := Allocate(sizes, size, |cases|);
    FitBounds(a, sizes, size, |cases|);
  }

  /**
   The sample: nothing for a size that is not positive, every case if the size allows, an error if
   there are more categories than seats; otherwise exactly sample_size cases, none taken twice,
   from every category at least one, no more than it has and less than one above its share unless
   it is the one, in order of category and source.  The seats of the categories are the end of the
   one course of corrections, and each category's cases are the first of its shuffled ones.
   */
  method StratifiedSampleCases(cases: seq<Case>, sampleSize: int, shuffle: Shuffle)
    returns (r: Option<seq<Case>>, ghost cats: seq<nat>, ghost course: seq<seq<int>>)
    requires Shuffles(shuffle)
    ensures sampleSize <= 0 ==> r == Some([])
    ensures 0 < sampleSize && sampleSize >= |cases| ==> r == Some(cases)
    ensures 0 < sampleSize < |cases| ==> (r.None? <==> sampleSize < |CategoriesOf(cases)|)
    ensures 0 < sampleSize < |cases| && r.Some? ==>
      && |r.value| == sampleSize && multiset(r.value) <= multiset(cases) && InOrder(r.value)
      && forall x :: x in cases ==> FairFor(x.category, r.value, cases, sampleSize)
    ensures 0 < sampleSize < |cases| && r.Some? ==>
      AreCategories(cats, cases) && Ascending(cats, (c: nat) => c) && SampleOf(r.value, cases, cats, course, sampleSize, shuffle)
  {
    cats, course := [], [];
    if sampleSize <= 0 {
      return Some([]), cats, course;
    }
    if sampleSize >= |cases| {
      return Some(cases), cats, course;
    }
    var groups, keys := Group(cases);
    hide Rows, Distinct, Ascending, SortBy, AllFit, InOrder, Collected, CategoriesOf, Sum, FairFor, Shuffles, Drawn, Course;
    SortBySpec(keys, (c: nat) => c);
    var categories := SortBy(keys, (c: nat) => c);
    cats := categories;
    SortedCategories(keys, cats, cases);
    if sampleSize < |categories| {
      return None, cats, course;
    }
    assert forall i :: 0 <= i < |cats| ==> cats[i] in keys by {
      SameElements(cats, keys);
    }
    var allocations;
    allocations, course := AllocateSeats(cases, groups, categories, sampleSize);
    var sampled := CollectSample(cases, groups, categories, allocations, shuffle);
    SampleIsFair(sampled, cases, cats, allocations, sampleSize, shuffle);
    return Some(sampled), cats, course;
  }

  /** The seats come from the corrections, and the cases from the shuffles. */
  ghost predicate SampleOf(sample: seq<Case>, cases: seq<Case>, cats: seq<nat>, course: seq<seq<int>>, size: int, shuffle: Shuffle)
    requires cases != []
  {
    && Course(Sizes(cats, cases), size, |cases|, course) && |course[|course| - 1]| == |cats|
    && forall i :: 0 <= i < |cats| ==> Drawn(Rows(sample, cats[i]), Rows(cases, cats[i]), course[|course| - 1][i], i, shuffle)
  }

  lemma FitBounds(a: seq<int>, n: seq<int>, s: int, total: int)
    requires AllFit(a, n, s, total)
    ensures |a| == |n| && forall i :: 0 <= i < |a| ==> 1 <= a[i] <= n[i]
  {
  }

  lemma SizesPositive(cats: seq<nat>, cases: seq<Case>)
    requires AreCategories(cats, cases)
    ensures forall i :: 0 <= i < |cats| ==> Sizes(cats, cases)[i] >= 1
  {
    forall i | 0 <= i < |cats| ensures |Rows(cases, cats[i])| >= 1 {
      assert cats[i] in Elems(cats);
      var x :| x in cases && x.category == cats[i];
      RowsAre(cases, cats[i]);
      assert x in Rows(cases, cats[i]);
    }
  }

  /** The first i categories are in the sample as the allocation says. */
  ghost predicate AllTaken(sample: seq<Case>, cases: seq<Case>, cats: seq<nat>, a: seq<int>, i: nat, shuffle: Shuffle)
    requires i <= |cats| == |a|
  {
    forall k :: 0 <= k < i ==> TakenFrom(sample, cases, cats[k], a[k], k, shuffle)
  }

  /** What the loop over the categories has built after i of them. */
  ghost predicate Collected(sample: seq<Case>, cases: seq<Case>, cats: seq<nat>, a: seq<int>, i: nat, shuffle: Shuffle)
    requires i <= |cats| == |a|
  {
    && InOrder(sample) && |sample| == Sum(a[..i]) && (forall x :: x in sample ==> x.category in cats[..i])
    && AllTaken(sample, cases, cats, a, i, shuffle)
  }

  lemma TakenStep(sample: seq<Case>, picked: seq<Case>, cases: seq<Case>, cats: seq<nat>, a: seq<int>, i: nat, shuffle: Shuffle)
    requires i < |cats| == |a| && AllTaken(sample, cases, cats, a, i, shuffle)
    requires |picked| == a[i] && multiset(picked) <= multiset(Rows(cases, cats[i]))
    requires Drawn(picked, Rows(cases, cats[i]), a[i], i, shuffle)
    requires Rows(sample + picked, cats[i]) == picked
    requires forall k :: 0 <= k < |cats| && k != i ==> Rows(sample + picked, cats[k]) == Rows(sample, cats[k])
    ensures AllTaken(sample + picked, cases, cats, a, i + 1, shuffle)
  {
    hide Rows;
    forall k | 0 <= k < i + 1 ensures TakenFrom(sample + picked, cases, cats[k], a[k], k, shuffle) {
      assert k < i ==> TakenFrom(sample, cases, cats[k], a[k], k, shuffle);
    }
  }

  lemma CollectStep(sample: seq<Case>, picked: seq<Case>, cases: seq<Case>, cats: seq<nat>, a: seq<int>, i: nat, shuffle: Shuffle)
    requires Ascending(cats, (c: nat) => c) && Distinct(cats) && i < |cats| == |a|
    requires Collected(sample, cases, cats, a, i, shuffle)
    requires |picked| == a[i] && multiset(picked) <= multiset(Rows(cases, cats[i]))
    requires Drawn(picked, Rows(cases, cats[i]), a[i], i, shuffle)
    requires Ascending(picked, (x: Case) => x.source)
    ensures Collected(sample + picked, cases, cats, a, i + 1, shuffle)
  {
    hide Rows, InOrder, Ascending, Distinct, AllTaken;
    SampleGrows(sample, picked, cases, cats, i);
    TakenStep(sample, picked, cases, cats, a, i, shuffle);
    assert a[..i + 1][..i] == a[..i];
  }

  /** The loop over the categories. */
  method CollectSample(cases: seq<Case>, groups: map<nat, seq<Case>>, cats: seq<nat>, a: seq<int>, shuffle: Shuffle)
    returns (sampled: seq<Case>)
    requires Shuffles(shuffle) && Ascending(cats, (c: nat) => c) && Distinct(cats) && |a| == |cats|
    requires forall i :: 0 <= i < |cats| ==> cats[i] in groups && groups[cats[i]] == Rows(cases, cats[i])
    requires forall i :: 0 <= i < |cats| ==> 0 <= a[i] <= |Rows(cases, cats[i])|
    ensures Collected(sampled, cases, cats, a, |cats|, shuffle)
  {
    sampled := [];
    assert Collected(sampled, cases, cats, a, 0, shuffle);
    hide Collected, Rows, Ascending, Distinct, Shuffles, SortBy;
    for i := 0 to |cats|
      invariant Collected(sampled, cases, cats, a, i, shuffle)
    {
      var picked := PickFrom(groups[cats[i]], a[i], i, shuffle);
      CollectStep(sampled, picked, cases, cats, a, i, shuffle);
      sampled := sampled + picked;
    }
  }

  lemma PartOfRows(sample: seq<Case>, cases: seq<Case>, cats: seq<nat>, a: seq<int>, c: nat, shuffle: Shuffle)
    requires |a| == |cats| && Collected(sample, cases, cats, a, |cats|, shuffle)
    ensures multiset(Rows(sample, c)) <= multiset(Rows(cases, c))
  {
    assert cats[..|cats|] == cats;
    hide Rows, InOrder, Sum;
    if c in cats {
      var i :| 0 <= i < |cats| && cats[i] == c;
      assert TakenFrom(sample, cases, cats[i], a[i], i, shuffle);
    } else {
      NoRows(sample, c);
    }
  }

  lemma {:induction false} NoRows(sample: seq<Case>, c: nat)
    requires forall x :: x in sample ==> x.category != c
    ensures Rows(sample, c) == []
  {
    if sample != [] {
      assert sample[|sample| - 1] in sample;
      NoRows(sample[..|sample| - 1], c);
    }
  }

  lemma SampleIsFair(sample: seq<Case>, cases: seq<Case>, cats: seq<nat>, a: seq<int>, size: int, shuffle: Shuffle)
    requires AreCategories(cats, cases) && AllFit(a, Sizes(cats, cases), size, |cases|)
    requires Collected(sample, cases, cats, a, |cats|, shuffle)
    ensures multiset(sample) <= multiset(cases) && |sample| == Sum(a) && InOrder(sample)
    ensures forall x :: x in cases ==> FairFor(x.category, sample, cases, size)
    ensures forall i :: 0 <= i < |cats| ==> Drawn(Rows(sample, cats[i]), Rows(cases, cats[i]), a[i], i, shuffle)
  {
    assert a[..|a|] == a;
    forall c ensures multiset(Rows(sample, c)) <= multiset(Rows(cases, c)) {
      PartOfRows(sample, cases, cats, a, c, shuffle);
    }
    SampleIsPart(sample, cases);
    CoversAll(cats, cases);
    hide Rows, Fits, InOrder, AreCategories, Sum, Drawn;
    forall i | 0 <= i < |cats| ensures Drawn(Rows(sample, cats[i]), Rows(cases, cats[i]), a[i], i, shuffle) {
      assert TakenFrom(sample, cases, cats[i], a[i], i, shuffle);
    }
    forall x | x in cases ensures FairFor(x.category, sample, cases, size) {
      var i :| 0 <= i < |cats| && cats[i] == x.category;
      assert TakenFrom(sample, cases, cats[i], a[i], i, shuffle);
      assert Fits(a[i], Sizes(cats, cases)[i], size, |cases|);
    }
  }

  lemma CoversAll(cats: seq<nat>, cases: seq<Case>)
    requires AreCategories(cats, cases)
    ensures forall x :: x in cases ==> x.category in cats
  {
    assert forall x :: x in cases ==> x.category in CategoriesOf(cases);
    assert forall c :: c in Elems(cats) <==> c in cats;
  }
}
