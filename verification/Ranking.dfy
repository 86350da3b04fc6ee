/** Scored chunks: thresholds, the descending sort, the cut, and how far the k best are determined. */
module Ranking {
  import opened DocStore

  datatype Scored = Scored(id: ChunkId, score: real)
  datatype Hit = Hit(rank: nat, id: ChunkId, score: real)

  function Ranked(s: seq<Scored>): (hits: seq<Hit>)
    ensures |hits| == |s|
    ensures forall i :: 0 <= i < |s| ==> hits[i] == Hit(i + 1, s[i].id, s[i].score)
  {
    if s == [] then [] else Ranked(s[..|s| - 1]) + [Hit(|s|, s[|s| - 1].id, s[|s| - 1].score)]
  }

  function AtLeast(s: seq<Scored>, threshold: real): seq<Scored> {
    if s == [] then []
    else AtLeast(s[..|s| - 1], threshold) + if s[|s| - 1].score < threshold then [] else [s[|s| - 1]]
  }

  /** Stable insertion for list.sort(key=score, reverse=True). */
  function InsertDesc(s: seq<Scored>, x: Scored): seq<Scored> {
    if s == [] then [x]
    else if s[|s| - 1].score >= x.score then s + [x]
    else InsertDesc(s[..|s| - 1], x) + [s[|s| - 1]]
  }

  function SortDesc(s: seq<Scored>): seq<Scored> {
    if s == [] then [] else InsertDesc(SortDesc(s[..|s| - 1]), s[|s| - 1])
  }

  function Take<T>(s: seq<T>, k: nat): seq<T> {
    if k <= |s| then s[..k] else s
  }

  lemma RankedSnoc(s: seq<Scored>, x: Scored, threshold: real)
    ensures AtLeast(s + [x], threshold) == AtLeast(s, threshold) + if x.score < threshold then [] else [x]
    ensures Ranked(s + [x]) == Ranked(s) + [Hit(|s| + 1, x.id, x.score)]
  {
    assert (s + [x])[..|s|] == s;
  }

  function AddHit(hits: seq<Hit>, one: seq<Scored>, threshold: real): seq<Hit> {
    if one == [] || one[0].score < threshold then hits else hits + [Hit(|hits| + 1, one[0].id, one[0].score)]
  }

  lemma AppendScored(before: seq<Scored>, one: seq<Scored>, threshold: real)
    requires |one| <= 1
    ensures Ranked(AtLeast(before + one, threshold)) == AddHit(Ranked(AtLeast(before, threshold)), one, threshold)
  {
    hide Ranked, AtLeast;
    if one == [] {
      assert before + one == before;
    } else {
      assert one == [one[0]] && AtLeast(before, threshold) + [] == AtLeast(before, threshold);
      RankedSnoc(before, one[0], threshold);
      RankedSnoc(AtLeast(before, threshold), one[0], threshold);
    }
  }

  // ── the k best candidates ──────────────────────────────────────

  ghost predicate Descending(s: seq<Scored>) {
    forall i, j :: 0 <= i < j < |s| ==> s[i].score >= s[j].score
  }

  ghost predicate Unrepeated(s: seq<Scored>) {
    forall i, j :: 0 <= i < j < |s| ==> s[i] != s[j]
  }

  /** s lists k best candidates, best first; candidates of one score stand in any order. */
  ghost predicate IsTop(c: set<Scored>, k: nat, s: seq<Scored>) {
    && |s| <= k && Descending(s) && Unrepeated(s)
    && (forall i :: 0 <= i < |s| ==> s[i] in c)
    && (forall x :: x in c && x !in s ==> |s| == k && forall i :: 0 <= i < |s| ==> s[i].score >= x.score)
  }

  function Elements(s: seq<Scored>): set<Scored> {
    set i | 0 <= i < |s| :: s[i]
  }

  lemma ElementsSnoc(s: seq<Scored>, x: Scored)
    ensures Elements(s + [x]) == Elements(s) + {x}
  {
    var t := s + [x];
    assert forall i :: 0 <= i < |s| ==> t[i] == s[i];
    assert t[|s|] == x;
    forall y | y in Elements(s) + {x} ensures y in Elements(t) {
      if y != x {
        var i :| 0 <= i < |s| && s[i] == y;
        assert t[i] == y;
      }
    }
  }

  lemma {:induction false} ElementsCount(s: seq<Scored>)
    requires Unrepeated(s)
    ensures |Elements(s)| == |s|
  {
    if s != [] {
      var n := |s| - 1;
      ElementsCount(s[..n]);
      ElementsSnoc(s[..n], s[n]);
      assert s == s[..n] + [s[n]];
    }
  }

  lemma SmallerSet<T>(a: set<T>, b: set<T>)
    requires a <= b
    ensures |a| <= |b|
  {
    assert b == a + (b - a);
  }

  ghost function Reaching(c: set<Scored>, threshold: real): set<Scored> {
    set x | x in c && x.score >= threshold
  }

  /** At least n + 1 candidates reach the score of entry n. */
  lemma ManyReach(c: set<Scored>, k: nat, s: seq<Scored>, n: nat)
    requires IsTop(c, k, s) && n < |s|
    ensures |Reaching(c, s[n].score)| >= n + 1
  {
    var top := s[..n + 1];
    assert Elements(top) <= Reaching(c, s[n].score);
    ElementsCount(top);
    SmallerSet(Elements(top), Reaching(c, s[n].score));
  }

  /** At most n candidates reach more than the score of entry n. */
  lemma FewReach(c: set<Scored>, k: nat, s: seq<Scored>, n: nat, v: real)
    requires IsTop(c, k, s) && n < |s|
    ensures v > s[n].score ==> |Reaching(c, v)| <= n
  {
    if v > s[n].score {
      var top := s[..n];
      forall x | x in Reaching(c, v) ensures x in Elements(top) {
        var j :| 0 <= j < |s| && s[j] == x;
        assert top[j] == x;
      }
      ElementsCount(top);
      SmallerSet(Reaching(c, v), Elements(top));
    }
  }

  lemma TopNoLonger(c: set<Scored>, k: nat, s: seq<Scored>, u: seq<Scored>)
    requires IsTop(c, k, s) && IsTop(c, k, u)
    ensures |u| <= |s|
  {
    if |s| < k {
      assert c <= Elements(s);
      assert Elements(u) <= c;
      ElementsCount(s);
      ElementsCount(u);
      SmallerSet(Elements(u), Elements(s));
    }
  }

  /** All such lists have the same scores in the same places. */
  lemma TopUnique(c: set<Scored>, k: nat, s: seq<Scored>, u: seq<Scored>)
    requires IsTop(c, k, s) && IsTop(c, k, u)
    ensures |s| == |u| && forall i :: 0 <= i < |s| ==> s[i].score == u[i].score
  {
    TopNoLonger(c, k, s, u);
    TopNoLonger(c, k, u, s);
    hide IsTop, Reaching;
    forall i | 0 <= i < |s| ensures s[i].score == u[i].score {
      ManyReach(c, k, s, i);
      FewReach(c, k, u, i, s[i].score);
      ManyReach(c, k, u, i);
      FewReach(c, k, s, i, u[i].score);
    }
  }

  // ── ties ───────────────────────────────────────────────────────

  ghost function Better(c: set<Scored>, v: real): set<Scored> {
    set x | x in c && x.score > v
  }

  /** Two candidates share a score that fewer than k candidates surpass. */
  ghost predicate Tied(c: set<Scored>, k: nat, x: Scored, y: Scored) {
    x in c && y in c && x != y && x.score == y.score && |Better(c, x.score)| < k
  }

  ghost predicate TieAtCut(c: set<Scored>, k: nat) {
    exists x, y :: Tied(c, k, x, y)
  }

  lemma FewBetter(c: set<Scored>, k: nat, s: seq<Scored>, n: nat)
    requires IsTop(c, k, s) && n < |s|
    ensures |Better(c, s[n].score)| <= n
  {
    var top := s[..n];
    forall x | x in Better(c, s[n].score) ensures x in Elements(top) {
      var j :| 0 <= j < |s| && s[j] == x;
      assert top[j] == x;
    }
    ElementsCount(top);
    SmallerSet(Better(c, s[n].score), Elements(top));
  }

  /** Without a tie that reaches the cut there is only one such list. */
  lemma TopDetermined(c: set<Scored>, k: nat, s: seq<Scored>, u: seq<Scored>)
    requires IsTop(c, k, s) && IsTop(c, k, u) && !TieAtCut(c, k)
    ensures s == u
  {
    TopUnique(c, k, s, u);
    forall i | 0 <= i < |s| ensures s[i] == u[i] {
      FewBetter(c, k, s, i);
      assert !Tied(c, k, s[i], u[i]);
    }
  }

  /** The place behind all better candidates holds one of the score. */
  lemma PlaceOfTie(c: set<Scored>, k: nat, s: seq<Scored>, x: Scored)
    requires IsTop(c, k, s) && x in c && |Better(c, x.score)| < k
    ensures var n := |Better(c, x.score)|; n < |s| && s[n].score == x.score
  {
    var b := Better(c, x.score);
    var n := |b|;
    assert |b + {x}| == n + 1;
    SmallerSet(b + {x}, Reaching(c, x.score));
    if |s| < k {
      assert c <= Elements(s);
      ElementsCount(s);
      SmallerSet(b + {x}, Elements(s));
    }
    FewReach(c, k, s, n, x.score);
    ManyBetter(c, k, s, n, x.score);
  }

  lemma ManyBetter(c: set<Scored>, k: nat, s: seq<Scored>, n: nat, v: real)
    requires IsTop(c, k, s) && n < |s|
    ensures s[n].score > v ==> |Better(c, v)| >= n + 1
  {
    if s[n].score > v {
      var top := s[..n + 1];
      assert Elements(top) <= Better(c, v);
      ElementsCount(top);
      SmallerSet(Elements(top), Better(c, v));
    }
  }

  function Swapped(x: Scored, a: Scored, b: Scored): Scored {
    if x == a then b else if x == b then a else x
  }

  function Exchanged(s: seq<Scored>, a: Scored, b: Scored): (r: seq<Scored>)
    ensures |r| == |s| && forall i :: 0 <= i < |s| ==> r[i] == Swapped(s[i], a, b)
  {
    seq(|s|, i requires 0 <= i < |s| => Swapped(s[i], a, b))
  }

  lemma SwappedBack(x: Scored, a: Scored, b: Scored)
    ensures Swapped(Swapped(x, a, b), a, b) == x
    ensures a.score == b.score ==> Swapped(x, a, b).score == x.score
  {
  }

  lemma ExchangedShape(c: set<Scored>, s: seq<Scored>, a: Scored, b: Scored)
    requires Descending(s) && Unrepeated(s) && (forall i :: 0 <= i < |s| ==> s[i] in c)
    requires a in c && b in c && a.score == b.score
    ensures var r := Exchanged(s, a, b); Descending(r) && Unrepeated(r) && forall i :: 0 <= i < |r| ==> r[i] in c
  {
    var r := Exchanged(s, a, b);
    forall i | 0 <= i < |s| ensures r[i].score == s[i].score && Swapped(r[i], a, b) == s[i] && r[i] in c {
      SwappedBack(s[i], a, b);
    }
    hide Exchanged, Swapped;
  }

  /** Two candidates of one score may trade places. */
  lemma ExchangedIsTop(c: set<Scored>, k: nat, s: seq<Scored>, a: Scored, b: Scored)
    requires IsTop(c, k, s) && a in c && b in c && a.score == b.score
    ensures IsTop(c, k, Exchanged(s, a, b))
  {
    var r := Exchanged(s, a, b);
    ExchangedShape(c, s, a, b);
    forall i | 0 <= i < |s| ensures r[i].score == s[i].score {
      SwappedBack(s[i], a, b);
    }
    forall x | x in c && x !in r ensures |r| == k && forall i :: 0 <= i < |r| ==> r[i].score >= x.score {
      SwappedBack(x, a, b);
      assert Swapped(x, a, b) in c;
      assert Swapped(x, a, b) !in s by {
        ExchangedHolds(s, a, b, x);
      }
      hide Exchanged, Swapped;
    }
    hide Exchanged, Descending, Unrepeated;
  }

  lemma ExchangedHolds(s: seq<Scored>, a: Scored, b: Scored, x: Scored)
    ensures Swapped(x, a, b) in s ==> x in Exchanged(s, a, b)
  {
    var y := Swapped(x, a, b);
    SwappedBack(x, a, b);
    if y in s {
      var i :| 0 <= i < |s| && s[i] == y;
      assert Exchanged(s, a, b)[i] == x;
    }
  }

  /** With a tie at the cut there is a second list, which differs where the tied score stands. */
  lemma OtherTop(c: set<Scored>, k: nat, s: seq<Scored>, x: Scored, y: Scored) returns (u: seq<Scored>, n: nat)
    requires IsTop(c, k, s) && Tied(c, k, x, y)
    ensures IsTop(c, k, u) && n < |s| == |u| && s[n].score == u[n].score == x.score && s[n] != u[n]
  {
    n := |Better(c, x.score)|;
    PlaceOfTie(c, k, s, x);
    var other := if s[n] == x then y else x;
    u := Exchanged(s, s[n], other);
    ExchangedIsTop(c, k, s, s[n], other);
  }

  // ── sorting and cutting ────────────────────────────────────────

  lemma Snoc(r: seq<Scored>, last: Scored)
    requires Descending(r) && Unrepeated(r) && last !in Elements(r)
    requires forall x :: x in Elements(r) ==> x.score >= last.score
    ensures Descending(r + [last]) && Unrepeated(r + [last])
  {
    forall i | 0 <= i < |r| ensures r[i].score >= last.score && r[i] != last {
      assert r[i] in Elements(r);
    }
  }

  lemma FrontAndLast(s: seq<Scored>)
    requires s != [] && Descending(s) && Unrepeated(s)
    ensures var front, last := s[..|s| - 1], s[|s| - 1];
            && Descending(front) && Unrepeated(front)
            && Elements(s) == Elements(front) + {last} && last !in Elements(front)
            && forall x :: x in Elements(front) ==> x.score >= last.score
  {
    var front, last := s[..|s| - 1], s[|s| - 1];
    assert s == front + [last];
    ElementsSnoc(front, last);
  }

  lemma {:induction false} InsertDescSpec(s: seq<Scored>, x: Scored)
    requires Descending(s) && Unrepeated(s) && x !in Elements(s)
    ensures Descending(InsertDesc(s, x)) && Unrepeated(InsertDesc(s, x))
    ensures Elements(InsertDesc(s, x)) == Elements(s) + {x}
  {
    if s == [] {
      assert [] + [x] == [x];
      ElementsSnoc([], x);
    } else {
      var front, last := s[..|s| - 1], s[|s| - 1];
      hide Elements, Descending, Unrepeated;
      FrontAndLast(s);
      if last.score >= x.score {
        Snoc(s, x);
        ElementsSnoc(s, x);
      } else {
        InsertDescSpec(front, x);
        Snoc(InsertDesc(front, x), last);
        ElementsSnoc(InsertDesc(front, x), last);
      }
    }
  }

  /** Sorting lists the candidates best first. */
  lemma {:induction false} SortDescSpec(s: seq<Scored>)
    requires Unrepeated(s)
    ensures Descending(SortDesc(s)) && Unrepeated(SortDesc(s)) && Elements(SortDesc(s)) == Elements(s)
  {
    if s != [] {
      var n := |s| - 1;
      assert Elements(s) == Elements(s[..n]) + {s[n]};
      SortDescSpec(s[..n]);
      assert s[n] !in Elements(s[..n]);
      hide Elements, Descending;
      InsertDescSpec(SortDesc(s[..n]), s[n]);
    }
  }

  /** Keeping k of a descending list keeps the k best. */
  lemma SortedTakeIsTop(s: seq<Scored>, k: nat)
    requires Descending(s) && Unrepeated(s)
    ensures IsTop(Elements(s), k, Take(s, k))
  {
    var u := Take(s, k);
    forall x | x in Elements(s) && x !in u ensures |u| == k && forall i :: 0 <= i < |u| ==> u[i].score >= x.score {
      var j :| 0 <= j < |s| && s[j] == x;
    }
  }

  lemma {:induction false} AtLeastElements(s: seq<Scored>, threshold: real)
    ensures Elements(AtLeast(s, threshold)) == Reaching(Elements(s), threshold)
    ensures Unrepeated(s) ==> Unrepeated(AtLeast(s, threshold))
  {
    if s != [] {
      var front, last := s[..|s| - 1], s[|s| - 1];
      assert s == front + [last];
      AtLeastElements(front, threshold);
      ElementsSnoc(front, last);
      ElementsSnoc(AtLeast(front, threshold), last);
      assert AtLeast(front, threshold) + [] == AtLeast(front, threshold);
      if Unrepeated(s) {
        assert forall i :: 0 <= i < |AtLeast(front, threshold)| ==> AtLeast(front, threshold)[i] in Elements(front);
        assert last !in Elements(front);
      }
    }
  }

  /** Of a descending list the threshold keeps a prefix. */
  lemma {:induction false} AtLeastPrefix(s: seq<Scored>, threshold: real)
    requires Descending(s)
    ensures var a := AtLeast(s, threshold);
            && a <= s && (forall i :: 0 <= i < |a| ==> s[i].score >= threshold)
            && (forall i :: |a| <= i < |s| ==> s[i].score < threshold)
  {
    if s != [] {
      AtLeastPrefix(s[..|s| - 1], threshold);
      var a := AtLeast(s[..|s| - 1], threshold);
      assert forall i :: |a| <= i < |s| - 1 ==> s[i] == s[..|s| - 1][i];
    }
  }

  /** Cutting the k best at a threshold gives the k best above it. */
  lemma ThresholdTop(c: set<Scored>, k: nat, s: seq<Scored>, threshold: real)
    requires IsTop(c, k, s)
    ensures IsTop(Reaching(c, threshold), k, AtLeast(s, threshold))
  {
    AtLeastPrefix(s, threshold);
    var a := AtLeast(s, threshold);
    hide AtLeast;
    forall x | x in Reaching(c, threshold) && x !in a
      ensures |a| == k && forall i :: 0 <= i < |a| ==> a[i].score >= x.score
    {
      assert x !in s by {
        assert s == a + s[|a|..];
        assert forall y :: y in s[|a|..] ==> y.score < threshold;
      }
      assert |s| > 0 ==> s[|s| - 1].score >= x.score;
      assert |a| == |s|;
    }
  }
}
