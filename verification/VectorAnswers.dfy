/**
 When every answer of the vec0 table gives the hits of the full scan (doc_rag/store.py:509-586): each
 list of k best candidates is the join of some answer, so the answers differ as soon as such lists do.
 */
module VectorAnswers {
  import opened DocStore
  import opened Ranking
  import opened TableAgreement
  import opened VectorMath
  import opened VectorSearch

  // ── every list of k best is an answer ──────────────────────────

  /** The place of a candidate in the scan. */
  function PlaceIn(s: seq<Scored>, x: Scored): (n: nat)
    requires x in s
    ensures n < |s| && s[n] == x
  {
    if s[0] == x then 0 else 1 + PlaceIn(s[1..], x)
  }

  /** vec0's row for a chunk, at the distance the index measures. */
  function RowFor(sqrt: real -> real, t: Tables, q: Vec, i: nat): Neighbour
    requires i < |t.chunks| && t.chunks[i].rowid in t.vec && |t.vec[t.chunks[i].rowid]| == |q|
  {
    Neighbour(t.chunks[i].rowid, sqrt(SquaredDistance(q, t.vec[t.chunks[i].rowid])))
  }

  lemma SquaredDistanceNonNegative(a: Vec, b: Vec)
    requires |a| == |b|
    ensures SquaredDistance(a, b) >= 0.0
  {
    DotSelf(Minus(a, b));
  }

  lemma RootSpec(sqrt: real -> real, x: real)
    requires IsSqrt(sqrt) && x >= 0.0
    ensures sqrt(x) >= 0.0 && Square(sqrt(x)) == x
  {
  }

  /** The row is exact, joins with the candidate, and its distance follows the score. */
  ghost predicate Exact(t: Tables, q: Vec, nb: Neighbour, x: Scored) {
    && nb.rowid in t.vec && |t.vec[nb.rowid]| == |q| && nb.distance >= 0.0
    && Square(nb.distance) == SquaredDistance(q, t.vec[nb.rowid])
    && JoinOne(t, nb) == [x] && x.score == DistanceScore(Square(nb.distance))
  }

  lemma RowExact(sqrt: real -> real, cfg: Config, t: Tables, query: Vec, i: nat)
    requires Comparable(sqrt, cfg, t, query) && i < |t.chunks|
    ensures var q := Normalize(sqrt, query);
            && t.chunks[i].rowid in t.vec && |t.vec[t.chunks[i].rowid]| == |q|
            && |Scanned(sqrt, t, t.chunks, query)| == |t.chunks|
            && Exact(t, q, RowFor(sqrt, t, q, i), Scanned(sqrt, t, t.chunks, query)[i])
  {
    var q := Normalize(sqrt, query);
    ComparableFacts(sqrt, cfg, t, query);
    ScannedAt(sqrt, t, t.chunks, query);
    assert IsSqrt(sqrt);
    hide IsSqrt, Comparable, Normalize, SquaredDistance, Square, DistanceScore, Cosine, Scanned, Lookup, Searchable;
    StoredScore(sqrt, cfg, t, query, i);
    var d := SquaredDistance(q, t.vec[t.chunks[i].rowid]);
    SquaredDistanceNonNegative(q, t.vec[t.chunks[i].rowid]);
    RootSpec(sqrt, d);
  }

  /** The answer that lists the candidates of u. */
  ghost predicate Answers(sqrt: real -> real, t: Tables, q: Vec, s: seq<Scored>, u: seq<Scored>, near: seq<Neighbour>) {
    && |near| == |u| && |s| == |t.chunks|
    && forall p :: 0 <= p < |u| ==>
         && u[p] in s && t.chunks[PlaceIn(s, u[p])].rowid in t.vec
         && |t.vec[t.chunks[PlaceIn(s, u[p])].rowid]| == |q|
         && near[p] == RowFor(sqrt, t, q, PlaceIn(s, u[p]))
  }

  lemma AnswerFor(sqrt: real -> real, cfg: Config, t: Tables, query: Vec, k: nat, s: seq<Scored>, u: seq<Scored>)
    returns (near: seq<Neighbour>)
    requires Comparable(sqrt, cfg, t, query) && s == Scanned(sqrt, t, t.chunks, query) && IsTop(Elements(s), k, u)
    ensures Answers(sqrt, t, Normalize(sqrt, query), s, u, near)
  {
    var q := Normalize(sqrt, query);
    ScanLength(sqrt, cfg, t, query);
    hide Comparable, Scanned, Descending, Unrepeated, Exact;
    forall p | 0 <= p < |u|
      ensures u[p] in s && t.chunks[PlaceIn(s, u[p])].rowid in t.vec && |t.vec[t.chunks[PlaceIn(s, u[p])].rowid]| == |q|
    {
      assert u[p] in Elements(s);
      RowExact(sqrt, cfg, t, query, PlaceIn(s, u[p]));
    }
    near := seq(|u|, p requires 0 <= p < |u| => RowFor(sqrt, t, q, PlaceIn(s, u[p])));
  }

  lemma ScanLength(sqrt: real -> real, cfg: Config, t: Tables, query: Vec)
    requires Comparable(sqrt, cfg, t, query)
    ensures |Scanned(sqrt, t, t.chunks, query)| == |t.chunks|
  {
    ComparableFacts(sqrt, cfg, t, query);
    ScannedAt(sqrt, t, t.chunks, query);
  }

  lemma AnswerRow(sqrt: real -> real, cfg: Config, t: Tables, query: Vec, s: seq<Scored>, u: seq<Scored>,
                  near: seq<Neighbour>, p: nat)
    requires Comparable(sqrt, cfg, t, query) && s == Scanned(sqrt, t, t.chunks, query)
    requires Answers(sqrt, t, Normalize(sqrt, query), s, u, near) && p < |u|
    ensures |near| == |u| && |s| == |t.chunks| && u[p] in s && near[p].rowid == t.chunks[PlaceIn(s, u[p])].rowid
    ensures Exact(t, Normalize(sqrt, query), near[p], u[p])
  {
    hide Comparable, Normalize, Scanned, Exact;
    RowExact(sqrt, cfg, t, query, PlaceIn(s, u[p]));
  }

  lemma CloserByScore(a: real, b: real)
    requires a >= 0.0 && b >= 0.0 && DistanceScore(Square(a)) >= DistanceScore(Square(b))
    ensures a <= b && Square(a) <= Square(b)
  {
    SquareIncreases(b, a);
  }

  lemma ExactOrder(t: Tables, q: Vec, nb: Neighbour, x: Scored, nb': Neighbour, x': Scored)
    requires Exact(t, q, nb, x) && Exact(t, q, nb', x') && x.score >= x'.score
    ensures nb.distance <= nb'.distance && Square(nb.distance) <= Square(nb'.distance)
    ensures Square(nb.distance) <= SquaredDistance(q, t.vec[nb'.rowid])
  {
    hide Square, SquaredDistance, JoinOne, DistanceScore;
    CloserByScore(nb.distance, nb'.distance);
  }

  lemma DifferentRows(cfg: Config, t: Tables, s: seq<Scored>, x: Scored, y: Scored)
    requires Agree(cfg, t) && |s| == |t.chunks| && x in s && y in s && x != y
    ensures t.chunks[PlaceIn(s, x)].rowid != t.chunks[PlaceIn(s, y)].rowid
  {
    assert Ascending(t.chunks);
    assert PlaceIn(s, x) != PlaceIn(s, y);
  }

  lemma StoreOf(sqrt: real -> real, cfg: Config, t: Tables, query: Vec)
    requires Comparable(sqrt, cfg, t, query)
    ensures Agree(cfg, t)
  {
  }

  lemma TopPair(c: set<Scored>, k: nat, u: seq<Scored>, i: nat, j: nat)
    requires IsTop(c, k, u) && i < j < |u|
    ensures u[i] != u[j] && u[i].score >= u[j].score
  {
  }

  /** Rows of different candidates are different and stand in the order of their scores. */
  lemma AnswerPair(sqrt: real -> real, cfg: Config, t: Tables, query: Vec, k: nat, s: seq<Scored>, u: seq<Scored>,
                   near: seq<Neighbour>, i: nat, j: nat)
    requires Comparable(sqrt, cfg, t, query) && s == Scanned(sqrt, t, t.chunks, query) && IsTop(Elements(s), k, u)
    requires Answers(sqrt, t, Normalize(sqrt, query), s, u, near) && i < j < |u|
    ensures |near| == |u| && near[i].rowid != near[j].rowid && near[i].distance <= near[j].distance
  {
    hide *;
    StoreOf(sqrt, cfg, t, query);
    TopPair(Elements(s), k, u, i, j);
    AnswerRow(sqrt, cfg, t, query, s, u, near, i);
    AnswerRow(sqrt, cfg, t, query, s, u, near, j);
    DifferentRows(cfg, t, s, u[i], u[j]);
    ExactOrder(t, Normalize(sqrt, query), near[i], u[i], near[j], u[j]);
  }

  lemma PlaceUnique(s: seq<Scored>, j: nat)
    requires Unrepeated(s) && j < |s|
    ensures PlaceIn(s, s[j]) == j
  {
  }

  lemma TopRest(s: seq<Scored>, k: nat, u: seq<Scored>, j: nat, p: nat)
    requires IsTop(Elements(s), k, u) && j < |s| && s[j] !in u
    ensures |u| == k && (p < |u| ==> u[p].score >= s[j].score)
  {
    assert s[j] in Elements(s);
  }

  /** A row left out is no nearer than any row listed, and then the answer is full. */
  lemma AnswerRest(sqrt: real -> real, cfg: Config, t: Tables, query: Vec, k: nat, s: seq<Scored>, u: seq<Scored>,
                   near: seq<Neighbour>, r: nat, p: nat)
    requires Comparable(sqrt, cfg, t, query) && s == Scanned(sqrt, t, t.chunks, query) && IsTop(Elements(s), k, u)
    requires Answers(sqrt, t, Normalize(sqrt, query), s, u, near)
    requires r in t.vec && |t.vec[r]| == |query| && forall i :: 0 <= i < |near| ==> near[i].rowid != r
    ensures |near| == |u| == k
    ensures p < |near| ==> Square(near[p].distance) <= SquaredDistance(Normalize(sqrt, query), t.vec[r])
  {
    ComparableFacts(sqrt, cfg, t, query);
    var j :| 0 <= j < |t.chunks| && t.chunks[j].rowid == r;
    hide *;
    ScanLength(sqrt, cfg, t, query);
    ScanCandidates(sqrt, cfg, t, query);
    PlaceUnique(s, j);
    AnswerLength(sqrt, t, Normalize(sqrt, query), s, u, near);
    forall i | 0 <= i < |u| ensures u[i] != s[j] {
      AnswerRow(sqrt, cfg, t, query, s, u, near, i);
    }
    TopRest(s, k, u, j, p);
    RowExact(sqrt, cfg, t, query, j);
    if p < |near| {
      AnswerRow(sqrt, cfg, t, query, s, u, near, p);
      RowForIs(sqrt, t, Normalize(sqrt, query), j);
      ExactOrder(t, Normalize(sqrt, query), near[p], u[p], RowFor(sqrt, t, Normalize(sqrt, query), j), s[j]);
    }
  }

  lemma RowForIs(sqrt: real -> real, t: Tables, q: Vec, i: nat)
    requires i < |t.chunks| && t.chunks[i].rowid in t.vec && |t.vec[t.chunks[i].rowid]| == |q|
    ensures RowFor(sqrt, t, q, i).rowid == t.chunks[i].rowid
  {
  }

  lemma AnswerLength(sqrt: real -> real, t: Tables, q: Vec, s: seq<Scored>, u: seq<Scored>, near: seq<Neighbour>)
    requires Answers(sqrt, t, q, s, u, near)
    ensures |near| == |u|
  {
  }

  lemma TopLength(c: set<Scored>, k: nat, u: seq<Scored>)
    requires IsTop(c, k, u)
    ensures |u| <= k
  {
  }

  lemma ExactParts(t: Tables, q: Vec, nb: Neighbour, x: Scored)
    requires Exact(t, q, nb, x)
    ensures nb.rowid in t.vec && |t.vec[nb.rowid]| == |q| && nb.distance >= 0.0
    ensures Square(nb.distance) == SquaredDistance(q, t.vec[nb.rowid]) && JoinOne(t, nb) == [x]
  {
  }

  lemma AnswerIsNearest(sqrt: real -> real, cfg: Config, t: Tables, query: Vec, k: nat, s: seq<Scored>, u: seq<Scored>,
                        near: seq<Neighbour>)
    requires Comparable(sqrt, cfg, t, query) && s == Scanned(sqrt, t, t.chunks, query) && IsTop(Elements(s), k, u)
    requires Answers(sqrt, t, Normalize(sqrt, query), s, u, near)
    requires forall r :: r in t.vec ==> |t.vec[r]| == |query|
    ensures KNearest(t, Normalize(sqrt, query), k, near)
  {
    var q := Normalize(sqrt, query);
    hide Comparable, Normalize, SquaredDistance, Square, Scanned, Answers, IsTop, Exact, Elements;
    AnswerLength(sqrt, t, q, s, u, near);
    TopLength(Elements(s), k, u);
    assert ExactRows(t, q, near) by {
      forall p | 0 <= p < |near|
        ensures near[p].rowid in t.vec && near[p].distance >= 0.0
        ensures Square(near[p].distance) == SquaredDistance(q, t.vec[near[p].rowid])
      {
        AnswerRow(sqrt, cfg, t, query, s, u, near, p);
        ExactParts(t, q, near[p], u[p]);
      }
    }
    assert NearestFirst(near) by {
      forall i, j | 0 <= i < j < |near| ensures near[i].rowid != near[j].rowid && near[i].distance <= near[j].distance {
        AnswerPair(sqrt, cfg, t, query, k, s, u, near, i, j);
      }
    }
    forall r | r in t.vec && forall i :: 0 <= i < |near| ==> near[i].rowid != r ensures Farther(t, q, k, near, r) {
      AnswerRest(sqrt, cfg, t, query, k, s, u, near, r, |near|);
      forall p | 0 <= p < |near| ensures Square(near[p].distance) <= SquaredDistance(q, t.vec[r]) {
        AnswerRest(sqrt, cfg, t, query, k, s, u, near, r, p);
      }
    }
    hide ExactRows, NearestFirst, Farther;
  }

  lemma AnswerJoins(sqrt: real -> real, cfg: Config, t: Tables, query: Vec, s: seq<Scored>, u: seq<Scored>,
                    near: seq<Neighbour>)
    requires Comparable(sqrt, cfg, t, query) && s == Scanned(sqrt, t, t.chunks, query)
    requires Answers(sqrt, t, Normalize(sqrt, query), s, u, near)
    ensures Joined(t, near) == u
  {
    hide Comparable, Normalize, Scanned, Joined, JoinOne, Answers, Exact;
    AnswerLength(sqrt, t, Normalize(sqrt, query), s, u, near);
    forall p | 0 <= p < |near| ensures JoinOne(t, near[p]) == [u[p]] {
      AnswerRow(sqrt, cfg, t, query, s, u, near, p);
      ExactParts(t, Normalize(sqrt, query), near[p], u[p]);
    }
    JoinedAt(t, near);
  }

  /** Every list of k best candidates is the join of some answer vec0 may give. */
  lemma TopIsAnswer(sqrt: real -> real, cfg: Config, t: Tables, query: Vec, k: nat, u: seq<Scored>) returns (near: seq<Neighbour>)
    requires Comparable(sqrt, cfg, t, query) && IsTop(Elements(Scanned(sqrt, t, t.chunks, query)), k, u)
    requires forall r :: r in t.vec ==> |t.vec[r]| == |query|
    ensures KNearest(t, Normalize(sqrt, query), k, near) && Joined(t, near) == u
  {
    hide *;
    var s := Scanned(sqrt, t, t.chunks, query);
    near := AnswerFor(sqrt, cfg, t, query, k, s, u);
    AnswerIsNearest(sqrt, cfg, t, query, k, s, u, near);
    AnswerJoins(sqrt, cfg, t, query, s, u, near);
  }

  /** Lists that differ at a score reaching the threshold give different hits. */
  lemma HitsDiffer(t: Tables, near: seq<Neighbour>, near': seq<Neighbour>, threshold: real, n: nat)
    requires Descending(Joined(t, near)) && Descending(Joined(t, near'))
    requires n < |Joined(t, near)| && n < |Joined(t, near')| && Joined(t, near)[n] != Joined(t, near')[n]
    requires Joined(t, near)[n].score == Joined(t, near')[n].score >= threshold
    ensures FastHits(t, near, threshold) != FastHits(t, near', threshold)
  {
    var u, v := Joined(t, near), Joined(t, near');
    hide Joined, Descending, AtLeast, Ranked;
    AtLeastPrefix(u, threshold);
    AtLeastPrefix(v, threshold);
    assert FastHits(t, near, threshold)[n].id == u[n].id && FastHits(t, near', threshold)[n].id == v[n].id;
  }

  /** With a tie at the cut some answer gives other hits than another. */
  lemma TwoAnswers(sqrt: real -> real, cfg: Config, t: Tables, query: Vec, k: nat, threshold: real)
    returns (near: seq<Neighbour>, near': seq<Neighbour>)
    requires Comparable(sqrt, cfg, t, query) && TieAtCut(Candidates(sqrt, t, query, threshold), k)
    requires forall r :: r in t.vec ==> |t.vec[r]| == |query|
    ensures KNearest(t, Normalize(sqrt, query), k, near) && KNearest(t, Normalize(sqrt, query), k, near')
    ensures FastHits(t, near, threshold) != FastHits(t, near', threshold)
  {
    var s, c := Scanned(sqrt, t, t.chunks, query), Candidates(sqrt, t, query, threshold);
    var x, y :| Tied(c, k, x, y);
    ScanCandidates(sqrt, cfg, t, query);
    TieOfAll(Elements(s), threshold, k, x, y);
    SortDescSpec(s);
    SortedTakeIsTop(SortDesc(s), k);
    hide Comparable, KNearest, Scanned, Joined, Elements, SortDesc, Candidates, TieAtCut, Normalize, FastHits;
    var u := Take(SortDesc(s), k);
    var v, n := OtherTop(Elements(s), k, u, x, y);
    near := TopIsAnswer(sqrt, cfg, t, query, k, u);
    near' := TopIsAnswer(sqrt, cfg, t, query, k, v);
    HitsDiffer(t, near, near', threshold, n);
  }

  /** A tie among the candidates that reach the threshold is one among all. */
  lemma TieOfAll(c: set<Scored>, threshold: real, k: nat, x: Scored, y: Scored)
    requires Tied(Reaching(c, threshold), k, x, y)
    ensures Tied(c, k, x, y) && x.score >= threshold
  {
    assert Better(Reaching(c, threshold), x.score) == Better(c, x.score);
  }

  /**
   Every answer vec0 may give leads to the very hits of the full scan if and only if no tie reaches
   the cut: no two candidates share a score that fewer than k candidates surpass.
   */
  lemma AnswersAgreeIff(sqrt: real -> real, cfg: Config, t: Tables, query: Vec, k: nat, threshold: real)
    requires Comparable(sqrt, cfg, t, query) && forall r :: r in t.vec ==> |t.vec[r]| == |query|
    ensures (forall near :: KNearest(t, Normalize(sqrt, query), k, near) ==>
               FastHits(t, near, threshold) == SlowHits(sqrt, t, query, k, threshold))
       <==> !TieAtCut(Candidates(sqrt, t, query, threshold), k)
  {
    hide Comparable, KNearest, Candidates, TieAtCut, Normalize, FastHits, SlowHits;
    if TieAtCut(Candidates(sqrt, t, query, threshold), k) {
      var near, near' := TwoAnswers(sqrt, cfg, t, query, k, threshold);
    } else {
      forall near | KNearest(t, Normalize(sqrt, query), k, near)
        ensures FastHits(t, near, threshold) == SlowHits(sqrt, t, query, k, threshold)
      {
        FastRefinesSlow(sqrt, cfg, t, query, k, near, threshold);
      }
    }
  }
}
