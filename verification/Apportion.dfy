/**
 The seat allocation inside stratified_sample_cases of memory2/eval_public_long_memory.py: floors of
 the exact shares, at least one each, then corrected one by one to the sample size.  A share is the
 rational n * s / total; comparisons of shares are scaled by total.
 */
module Apportion {
  import opened Text

  function Sum(a: seq<int>): int {
    if a == [] then 0 else Sum(a[..|a| - 1]) + a[|a| - 1]
  }

  lemma {:induction false} SumUpdate(a: seq<int>, i: nat, v: int)
    requires i < |a|
    ensures Sum(a[i := v]) == Sum(a) - a[i] + v
  {
    var b := a[i := v];
    if i == |a| - 1 {
      assert b[..i] == a[..i];
    } else {
      SumUpdate(a[..|a| - 1], i, v);
      assert b[..|a| - 1] == a[..|a| - 1][i := v];
    }
  }

  lemma {:induction false} SumAtMost(a: seq<int>, b: int)
    requires forall i :: 0 <= i < |a| ==> a[i] <= b
    ensures Sum(a) <= b * |a|
  {
    if a != [] {
      SumAtMost(a[..|a| - 1], b);
      assert b * |a| == b * (|a| - 1) + b;
    }
  }

  /** How far a category is above its share, times total. */
  function Excess(a: int, n: int, s: int, total: int): int {
    a * total - n * s
  }

  function Excesses(a: seq<int>, n: seq<int>, s: int, total: int): (e: seq<int>)
    requires |a| == |n|
    ensures |e| == |a| && forall i :: 0 <= i < |a| ==> e[i] == Excess(a[i], n[i], s, total)
  {
    seq(|a|, i requires 0 <= i < |a| => Excess(a[i], n[i], s, total))
  }

  lemma {:induction false} SumExcess(a: seq<int>, n: seq<int>, s: int, total: int)
    requires |a| == |n|
    ensures Sum(Excesses(a, n, s, total)) == Excess(Sum(a), Sum(n), s, total)
  {
    var e := Excesses(a, n, s, total);
    if a != [] {
      var k := |a| - 1;
      SumExcess(a[..k], n[..k], s, total);
      assert e[..k] == Excesses(a[..k], n[..k], s, total);
      ExcessAdds(Sum(a[..k]), a[k], Sum(n[..k]), n[k], s, total);
    }
  }

  lemma ExcessAdds(a: int, b: int, n: int, m: int, s: int, total: int)
    ensures Excess(a + b, n + m, s, total) == Excess(a, n, s, total) + Excess(b, m, s, total)
  {
    assert (a + b) * total == a * total + b * total;
    assert (n + m) * s == n * s + m * s;
  }

  // ── choosing a category ────────────────────────────────────────

  datatype Key = Key(first: int, second: int, rank: int)

  predicate Less(a: Key, b: Key) {
    a.first < b.first || (a.first == b.first && (a.second < b.second || (a.second == b.second && a.rank < b.rank)))
  }

  /** max over the categories of a key that ends in the category itself */
  method MaxBy(keys: seq<Key>) returns (k: nat)
    requires keys != []
    ensures k < |keys| && forall i :: 0 <= i < |keys| ==> !Less(keys[k], keys[i])
  {
    k := 0;
    for i := 1 to |keys|
      invariant k < i && forall j :: 0 <= j < i ==> !Less(keys[k], keys[j])
    {
      if Less(keys[k], keys[i]) {
        k := i;
      }
    }
  }

  // ── the bounds every allocation keeps ──────────────────────────

  /** Between one and the size, and less than one above the share unless it is the one. */
  ghost predicate Fits(a: int, n: int, s: int, total: int) {
    1 <= a <= n && (a == 1 || Excess(a - 1, n, s, total) < 0)
  }

  ghost predicate AllFit(a: seq<int>, n: seq<int>, s: int, total: int) {
    |a| == |n| && forall i :: 0 <= i < |a| ==> Fits(a[i], n[i], s, total)
  }

  /** floor(n * s / total) */
  function Floor(n: int, s: int, total: int): int
    requires total > 0
  {
    n * s / total
  }

  function Start(n: int, s: int, total: int): int
    requires total > 0
  {
    if Floor(n, s, total) > 1 then Floor(n, s, total) else 1
  }

  lemma FloorBounds(n: int, s: int, total: int)
    requires n >= 1 && 0 <= s < total
    ensures 0 <= Floor(n, s, total) < n && Excess(Floor(n, s, total), n, s, total) <= 0
  {
    var f := Floor(n, s, total);
    assert f * total <= n * s < f * total + total;
    ProductGrows(n, s, total);
    LessFromProducts(f, n, total);
    Monotone(0, n, s);
    assert f * total + total == (f + 1) * total;
    LessFromProducts(0, f + 1, total);
  }

  lemma LessFromProducts(a: int, b: int, c: int)
    requires c > 0 && a * c < b * c
    ensures a < b
  {
    if a >= b {
      Monotone(b, a, c);
    }
  }

  lemma Monotone(a: int, b: int, c: int)
    requires a <= b && c >= 0
    ensures a * c <= b * c
  {
  }

  lemma ProductGrows(n: int, s: int, total: int)
    requires n >= 1 && s < total
    ensures n * s < n * total
  {
  }

  lemma StartFits(n: int, s: int, total: int)
    requires n >= 1 && 0 <= s < total
    ensures Fits(Start(n, s, total), n, s, total)
  {
    FloorBounds(n, s, total);
    ExcessAdds(Floor(n, s, total) - 1, 1, n, 0, s, total);
    hide Floor;
  }

  lemma ShrinkFits(a: int, n: int, s: int, total: int)
    requires Fits(a, n, s, total) && a > 1 && total > 0
    ensures Fits(a - 1, n, s, total)
  {
    ExcessAdds(a - 2, 1, n, 0, s, total);
    hide Excess;
    assert Excess(1, 0, s, total) > 0 by { OneMore(s, total); }
  }

  lemma OneMore(s: int, total: int)
    ensures Excess(1, 0, s, total) == total
  {
  }

  /** Below its share a category has room for one more. */
  lemma GrowFits(a: int, n: int, s: int, total: int)
    requires Fits(a, n, s, total) && 0 <= s < total && Excess(a, n, s, total) < 0
    ensures Fits(a + 1, n, s, total)
  {
    if a >= n {
      ProductGrows(n, s, total);
      Monotone(n, a, total);
    }
  }

  /** More seats than the sample: some category has more than one, as there are no more categories than seats. */
  lemma SomeAboveOne(a: seq<int>, s: int) returns (i: nat)
    requires Sum(a) > s >= |a|
    ensures i < |a| && a[i] > 1
  {
    if forall i :: 0 <= i < |a| ==> a[i] <= 1 {
      SumAtMost(a, 1);
    }
    i :| i < |a| && a[i] > 1;
  }

  /** Fewer seats than the sample: some category is below its share. */
  lemma SomeBelowShare(a: seq<int>, n: seq<int>, s: int, total: int) returns (i: nat)
    requires |a| == |n| && Sum(a) < s && 0 <= s < total && Sum(n) == total
    ensures i < |a| && Excess(a[i], n[i], s, total) < 0
  {
    var e := Excesses(a, n, s, total);
    SumExcess(a, n, s, total);
    if forall i :: 0 <= i < |e| ==> -e[i] <= 0 {
      SumNonNegative(e);
      Monotone(Sum(a), s - 1, total);
    }
    i :| i < |e| && e[i] < 0;
  }

  lemma {:induction false} SumNonNegative(a: seq<int>)
    requires forall i :: 0 <= i < |a| ==> a[i] >= 0
    ensures Sum(a) >= 0
  {
    if a != [] {
      SumNonNegative(a[..|a| - 1]);
    }
  }

  /** The sizes' floors, at least one each. */
  function Starts(n: seq<int>, s: int, total: int): (a: seq<int>)
    requires total > 0
    ensures |a| == |n| && forall i :: 0 <= i < |n| ==> a[i] == Start(n[i], s, total)
  {
    seq(|n|, i requires 0 <= i < |n| => Start(n[i], s, total))
  }

  /** The key of the cutting loop: above one first, then furthest above its share, then the later name. */
  function CutKeys(a: seq<int>, n: seq<int>, s: int, total: int): (keys: seq<Key>)
    requires |a| == |n|
    ensures |keys| == |a|
  {
    seq(|a|, i requires 0 <= i < |a| => Key(if a[i] > 1 then 1 else 0, Excess(a[i], n[i], s, total), i))
  }

  /** The key of the topping-up loop: furthest below its share, then most cases left, then the later name. */
  function TopUpKeys(a: seq<int>, n: seq<int>, s: int, total: int): (keys: seq<Key>)
    requires |a| == |n|
    ensures |keys| == |a|
  {
    seq(|a|, i requires 0 <= i < |a| => Key(-Excess(a[i], n[i], s, total), n[i] - a[i], i))
  }

  /** The category to cut: of those with more than one the furthest above its share, of equal ones the last. */
  ghost predicate CutFirst(a: seq<int>, n: seq<int>, s: int, total: int, k: nat) {
    && k < |a| == |n| && a[k] > 1
    && forall i :: 0 <= i < |a| && a[i] > 1 ==>
         var x, y := Excess(a[i], n[i], s, total), Excess(a[k], n[k], s, total);
         x < y || (x == y && i <= k)
  }

  /** The category to top up: the furthest below its share, of equal ones the one with most cases left, of these the last. */
  ghost predicate TopUpFirst(a: seq<int>, n: seq<int>, s: int, total: int, k: nat) {
    && k < |a| == |n|
    && forall i :: 0 <= i < |a| ==>
         var x, y := Excess(a[i], n[i], s, total), Excess(a[k], n[k], s, total);
         x > y || (x == y && (n[i] - a[i] < n[k] - a[k] || (n[i] - a[i] == n[k] - a[k] && i <= k)))
  }

  /** One seat taken away while there are too many, or given while there are too few. */
  ghost predicate Corrects(a: seq<int>, b: seq<int>, n: seq<int>, s: int, total: int) {
    || (Sum(a) > s && exists k: nat :: CutFirst(a, n, s, total, k) && b == a[k := a[k] - 1])
    || (Sum(a) < s && exists k: nat :: TopUpFirst(a, n, s, total, k) && b == a[k := a[k] + 1])
  }

  /** The allocations passed through, from the floors on. */
  ghost predicate Course(n: seq<int>, s: int, total: int, course: seq<seq<int>>)
    requires total > 0
  {
    && course != [] && course[0] == Starts(n, s, total)
    && forall j :: 0 <= j < |course| - 1 ==> Corrects(course[j], course[j + 1], n, s, total)
  }

  /** The next allocation is determined. */
  lemma CorrectsUnique(a: seq<int>, b: seq<int>, c: seq<int>, n: seq<int>, s: int, total: int)
    requires Corrects(a, b, n, s, total) && Corrects(a, c, n, s, total)
    ensures b == c
  {
    hide Excess;
    if Sum(a) > s {
      var k: nat :| CutFirst(a, n, s, total, k) && b == a[k := a[k] - 1];
      var m: nat :| CutFirst(a, n, s, total, m) && c == a[m := a[m] - 1];
      assert k == m;
    } else {
      var k: nat :| TopUpFirst(a, n, s, total, k) && b == a[k := a[k] + 1];
      var m: nat :| TopUpFirst(a, n, s, total, m) && c == a[m := a[m] + 1];
      assert k == m;
    }
  }

  /** So the course to an allocation of the right size is, and with it the allocation. */
  lemma {:induction false} CourseUnique(n: seq<int>, s: int, total: int, c: seq<seq<int>>, d: seq<seq<int>>, j: nat)
    requires total > 0 && Course(n, s, total, c) && Course(n, s, total, d)
    requires j < |c| && Sum(c[|c| - 1]) == Sum(d[|d| - 1]) == s
    ensures j < |d| && c[j] == d[j] && (j == |c| - 1 <==> j == |d| - 1)
  {
    hide Corrects, Sum, Starts;
    if j > 0 {
      CourseUnique(n, s, total, c, d, j - 1);
      assert Corrects(c[j - 1], c[j - 1 + 1], n, s, total) && Corrects(d[j - 1], d[j - 1 + 1], n, s, total);
      CorrectsUnique(c[j - 1], c[j], d[j], n, s, total);
    }
    if j < |c| - 1 {
      assert Corrects(c[j], c[j + 1], n, s, total);
      NotYet(c[j], c[j + 1], n, s, total);
    }
    if j < |d| - 1 {
      assert Corrects(d[j], d[j + 1], n, s, total);
      NotYet(d[j], d[j + 1], n, s, total);
    }
  }

  lemma NotYet(a: seq<int>, b: seq<int>, n: seq<int>, s: int, total: int)
    requires Corrects(a, b, n, s, total)
    ensures Sum(a) != s
  {
  }

  lemma CourseGrows(n: seq<int>, s: int, total: int, course: seq<seq<int>>, b: seq<int>)
    requires total > 0 && Course(n, s, total, course) && Corrects(course[|course| - 1], b, n, s, total)
    ensures Course(n, s, total, course + [b])
  {
    hide Corrects, Starts;
    SnocFront(course, b);
  }

  /** The category to cut has more than one. */
  method PickToCut(a: seq<int>, n: seq<int>, s: int, total: int) returns (k: nat)
    requires |a| == |n| && Sum(a) > s >= |a|
    ensures CutFirst(a, n, s, total, k)
  {
    hide Excess;
    ghost var some := SomeAboveOne(a, s);
    var keys := CutKeys(a, n, s, total);
    k := MaxBy(keys);
    assert forall i :: 0 <= i < |a| ==> keys[i] == Key(if a[i] > 1 then 1 else 0, Excess(a[i], n[i], s, total), i);
    assert !Less(keys[k], keys[some]);
    forall i | 0 <= i < |a| && a[i] > 1
      ensures var x, y := Excess(a[i], n[i], s, total), Excess(a[k], n[k], s, total); x < y || (x == y && i <= k)
    {
      assert !Less(keys[k], keys[i]);
    }
  }

  /** The category to top up is below its share. */
  method PickToTopUp(a: seq<int>, n: seq<int>, s: int, total: int) returns (k: nat)
    requires |a| == |n| && Sum(a) < s && 0 <= s < total && Sum(n) == total
    ensures TopUpFirst(a, n, s, total, k) && Excess(a[k], n[k], s, total) < 0
  {
    hide Excess;
    ghost var some := SomeBelowShare(a, n, s, total);
    var keys := TopUpKeys(a, n, s, total);
    k := MaxBy(keys);
    assert forall i :: 0 <= i < |a| ==> keys[i] == Key(-Excess(a[i], n[i], s, total), n[i] - a[i], i);
    assert !Less(keys[k], keys[some]);
    forall i | 0 <= i < |a|
      ensures var x, y := Excess(a[i], n[i], s, total), Excess(a[k], n[k], s, total);
              x > y || (x == y && (n[i] - a[i] < n[k] - a[k] || (n[i] - a[i] == n[k] - a[k] && i <= k)))
    {
      assert !Less(keys[k], keys[i]);
    }
  }

  lemma StartsFit(n: seq<int>, s: int, total: int)
    requires 0 <= s < total && forall i :: 0 <= i < |n| ==> n[i] >= 1
    ensures AllFit(Starts(n, s, total), n, s, total)
    ensures KeepsFloors(Starts(n, s, total), n, s, total)
  {
    forall i | 0 <= i < |n| ensures Fits(Start(n[i], s, total), n[i], s, total) {
      StartFits(n[i], s, total);
    }
    hide Fits;
  }

  /** Every category that is not one has at least the whole part of its share. */
  ghost predicate KeepsFloors(a: seq<int>, n: seq<int>, s: int, total: int)
    requires total > 0
  {
    |a| == |n| && forall i :: 0 <= i < |n| ==> Floor(n[i], s, total) <= a[i]
  }

  lemma CutOne(a: seq<int>, n: seq<int>, s: int, total: int, k: nat)
    requires AllFit(a, n, s, total) && k < |a| && a[k] > 1 && total > 0
    ensures var b := a[k := a[k] - 1]; AllFit(b, n, s, total) && Sum(b) == Sum(a) - 1
  {
    ShrinkFits(a[k], n[k], s, total);
    SumUpdate(a, k, a[k] - 1);
    hide Fits;
  }

  lemma TopUpOne(a: seq<int>, n: seq<int>, s: int, total: int, k: nat)
    requires AllFit(a, n, s, total) && k < |a| && Excess(a[k], n[k], s, total) < 0 && 0 <= s < total
    ensures var b := a[k := a[k] + 1]; AllFit(b, n, s, total) && Sum(b) == Sum(a) + 1
    ensures KeepsFloors(a, n, s, total) ==> KeepsFloors(a[k := a[k] + 1], n, s, total)
  {
    GrowFits(a[k], n[k], s, total);
    SumUpdate(a, k, a[k] + 1);
    hide Fits, Floor;
  }

  /**
   The allocation: both loops end, the break is never taken, the seats sum to the sample size,
   every category gets at least one and no more than it has, and none exceeds its share by one or
   more unless it has just the one.  When the floors need no cutting, none falls below its floor.
   */
  method Allocate(n: seq<int>, s: int, total: int) returns (a: seq<int>, ghost course: seq<seq<int>>)
    requires |n| <= s < total && Sum(n) == total && forall i :: 0 <= i < |n| ==> n[i] >= 1
    ensures AllFit(a, n, s, total) && Sum(a) == s
    ensures Sum(Starts(n, s, total)) <= s ==> KeepsFloors(a, n, s, total)
    ensures Course(n, s, total, course) && course[|course| - 1] == a
  {
    a := Starts(n, s, total);
    course := [a];
    StartsFit(n, s, total);
    ghost var first := a;
    hide Excess, Floor, Sum, CutKeys, TopUpKeys, Start, AllFit, KeepsFloors, Starts, Course;
    assert Course(n, s, total, course) by { CourseStarts(n, s, total); }
    while Sum(a) > s
      invariant |a| == |n| && AllFit(a, n, s, total)
      invariant Sum(a) >= s || a == first
      invariant Sum(first) <= s ==> a == first
      invariant course != [] && course[|course| - 1] == a && Course(n, s, total, course)
      decreases Sum(a) - s
    {
      var k := PickToCut(a, n, s, total);
      if a[k] <= 1 {
        assert false;
        break;
      }
      CutOne(a, n, s, total, k);
      CourseGrows(n, s, total, course, a[k := a[k] - 1]);
      a := a[k := a[k] - 1];
      course := course + [a];
    }
    while Sum(a) < s
      invariant |a| == |n| && AllFit(a, n, s, total) && Sum(a) <= s
      invariant Sum(first) <= s ==> KeepsFloors(a, n, s, total)
      invariant course != [] && course[|course| - 1] == a && Course(n, s, total, course)
      decreases s - Sum(a)
    {
      var k := PickToTopUp(a, n, s, total);
      TopUpOne(a, n, s, total, k);
      CourseGrows(n, s, total, course, a[k := a[k] + 1]);
      a := a[k := a[k] + 1];
      course := course + [a];
    }
  }

  lemma CourseStarts(n: seq<int>, s: int, total: int)
    requires total > 0
    ensures Course(n, s, total, [Starts(n, s, total)])
  {
  }
}
