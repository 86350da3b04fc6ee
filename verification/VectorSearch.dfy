/**
 The two vector searches of doc_rag/store.py: the indexed one (nearest neighbours of the
 normalised query in the vec0 table, then join and threshold) and the full scan (cosine of every
 chunk, threshold, sort, cut).

 The vec0 table is trusted to return exact nearest neighbours, in any order among equals.
 */
module VectorSearch {
  import opened Text
  import opened DocStore
  import opened TableAgreement
  import opened Transactions
  import opened VectorMath
  import opened Ranking

  // ── hits ───────────────────────────────────────────────────────

  /** One row of vec0's answer. */
  datatype Neighbour = Neighbour(rowid: nat, distance: real)

  /** The WHERE clause both queries share. */
  predicate Searchable(t: Tables, r: Row) {
    && r.chunk.docId in t.documents && t.documents[r.chunk.docId].status == Active
    && r.chunk.ready && r.chunk.embedding.Some?
  }

  function Lookup(rows: seq<Row>, rowid: nat): Option<Row> {
    if rows == [] then None
    else if rows[|rows| - 1].rowid == rowid then Some(rows[|rows| - 1])
    else Lookup(rows[..|rows| - 1], rowid)
  }

  function NeighbourScore(nb: Neighbour): real {
    DistanceScore(Square(nb.distance))
  }

  /** A neighbour joined with its chunk and scored by distance. */
  function JoinOne(t: Tables, nb: Neighbour): (r: seq<Scored>)
    ensures |r| <= 1
  {
    var r := Lookup(t.chunks, nb.rowid);
    if r.Some? && Searchable(t, r.value)
    then [Scored(r.value.chunk.id, NeighbourScore(nb))] else []
  }

  function Joined(t: Tables, near: seq<Neighbour>): seq<Scored> {
    if near == [] then [] else Joined(t, near[..|near| - 1]) + JoinOne(t, near[|near| - 1])
  }

  /** Every searchable chunk with its cosine, in table order. */
  function Scanned(sqrt: real -> real, t: Tables, rows: seq<Row>, query: Vec): seq<Scored> {
    if rows == [] then []
    else
      var last := rows[|rows| - 1];
      Scanned(sqrt, t, rows[..|rows| - 1], query)
      + if Searchable(t, last) then [Scored(last.chunk.id, Cosine(sqrt, query, last.chunk.embedding.value))] else []
  }

  lemma JoinedStep(t: Tables, near: seq<Neighbour>, n: nat)
    requires n < |near|
    ensures Joined(t, near[..n + 1]) == Joined(t, near[..n]) + JoinOne(t, near[n])
  {
    assert near[..n + 1][..n] == near[..n];
  }

  /** The indexed search on a given answer of vec0. */
  function FastHits(t: Tables, near: seq<Neighbour>, threshold: real): seq<Hit> {
    Ranked(AtLeast(Joined(t, near), threshold))
  }

  lemma FastStep(t: Tables, near: seq<Neighbour>, n: nat, threshold: real)
    requires n < |near|
    ensures FastHits(t, near[..n + 1], threshold) == AddHit(FastHits(t, near[..n], threshold), JoinOne(t, near[n]), threshold)
  {
    JoinedStep(t, near, n);
    hide Joined, JoinOne, Ranked, AtLeast;
    AppendScored(Joined(t, near[..n]), JoinOne(t, near[n]), threshold);
  }

  /** One round of the loop: the neighbour's chunk is missing, hidden, below the threshold, or a hit. */
  lemma FastRound(t: Tables, near: seq<Neighbour>, n: nat, threshold: real)
    requires n < |near|
    ensures var hits, nb, row := FastHits(t, near[..n], threshold), near[n], Lookup(t.chunks, near[n].rowid);
            FastHits(t, near[..n + 1], threshold)
            == if row.None? || !Searchable(t, row.value) || NeighbourScore(nb) < threshold then hits
               else hits + [Hit(|hits| + 1, row.value.chunk.id, NeighbourScore(nb))]
  {
    hide FastHits, Lookup, Searchable, NeighbourScore;
    FastStep(t, near, n, threshold);
  }

  lemma FastEnds(t: Tables, near: seq<Neighbour>, threshold: real)
    ensures FastHits(t, near[..0], threshold) == [] && near[..|near|] == near
  {
  }

  method SearchVectorSqliteVec(t: Tables, near: seq<Neighbour>, topK: nat, threshold: real) returns (hits: seq<Hit>)
    requires |near| <= topK
    ensures hits == FastHits(t, near, threshold)
  {
    hits := [];
    var n := 0;
    FastEnds(t, near, threshold);
    hide *;
    while n < |near|
      invariant 0 <= n <= |near|
      invariant hits == FastHits(t, near[..n], threshold)
      invariant |hits| <= n
    {
      FastRound(t, near, n, threshold);
      var nb := near[n];
      n := n + 1;
      var row := Lookup(t.chunks, nb.rowid);
      if row.None? || !Searchable(t, row.value) {
        continue;
      }
      var score := NeighbourScore(nb);
      if score < threshold {
        continue;
      }
      hits := hits + [Hit(|hits| + 1, row.value.chunk.id, score)];
      if |hits| >= topK {
        break;
      }
    }
    assert n == |near|;
  }

  /** The full scan. */
  function SlowHits(sqrt: real -> real, t: Tables, query: Vec, topK: nat, threshold: real): seq<Hit> {
    Ranked(Take(SortDesc(AtLeast(Scanned(sqrt, t, t.chunks, query), threshold)), topK))
  }

  method SearchVectorFullscan(sqrt: real -> real, t: Tables, query: Vec, topK: nat, threshold: real) returns (hits: seq<Hit>)
    ensures hits == SlowHits(sqrt, t, query, topK, threshold)
  {
    var scored: seq<Scored> := [];
    var n := 0;
    while n < |t.chunks|
      invariant 0 <= n <= |t.chunks|
      invariant scored == AtLeast(Scanned(sqrt, t, t.chunks[..n], query), threshold)
    {
      assert t.chunks[..n + 1][..n] == t.chunks[..n];
      ghost var before := Scanned(sqrt, t, t.chunks[..n], query);
      ghost var after := Scanned(sqrt, t, t.chunks[..n + 1], query);
      if Searchable(t, t.chunks[n]) {
        var score := Cosine(sqrt, query, t.chunks[n].chunk.embedding.value);
        assert after[..|after| - 1] == before;
        if score >= threshold {
          scored := scored + [Scored(t.chunks[n].chunk.id, score)];
        }
        assert scored == AtLeast(after, threshold);
      } else {
        assert after == before;
      }
      n := n + 1;
    }
    assert t.chunks[..n] == t.chunks;
    var top := Take(SortDesc(scored), topK);
    hits := [];
    for i := 0 to |top|
      invariant hits == Ranked(top[..i])
    {
      assert top[..i + 1][..i] == top[..i];
      hits := hits + [Hit(i + 1, top[i].id, top[i].score)];
    }
    assert top[..|top|] == top;
  }

  /** Rows of the table at their exact distances. */
  ghost predicate ExactRows(t: Tables, q: Vec, near: seq<Neighbour>)
    requires forall r :: r in t.vec ==> |t.vec[r]| == |q|
  {
    forall i :: 0 <= i < |near| ==>
      var d := near[i].distance;
      near[i].rowid in t.vec && d >= 0.0 && Square(d) == SquaredDistance(q, t.vec[near[i].rowid])
  }

  ghost predicate NearestFirst(near: seq<Neighbour>) {
    forall i, j :: 0 <= i < j < |near| ==> near[i].rowid != near[j].rowid && near[i].distance <= near[j].distance
  }

  /** The row is not listed, although the answer is full, and no listed row is farther. */
  ghost predicate Farther(t: Tables, q: Vec, k: nat, near: seq<Neighbour>, r: nat)
    requires r in t.vec && |t.vec[r]| == |q|
  {
    |near| == k && forall i :: 0 <= i < |near| ==> Square(near[i].distance) <= SquaredDistance(q, t.vec[r])
  }

  /** vec0's promise: min(k, size) rows, nearest first, and no other row is nearer. */
  ghost predicate KNearest(t: Tables, q: Vec, k: nat, near: seq<Neighbour>)
    requires forall r :: r in t.vec ==> |t.vec[r]| == |q|
  {
    && ExactRows(t, q, near) && NearestFirst(near) && |near| <= k
    && (forall r :: r in t.vec && (forall i :: 0 <= i < |near| ==> near[i].rowid != r) ==> Farther(t, q, k, near, r))
  }

  /** The scan lists every chunk with its cosine. */
  lemma {:induction false} ScannedAt(sqrt: real -> real, t: Tables, rows: seq<Row>, query: Vec)
    requires forall i :: 0 <= i < |rows| ==> Searchable(t, rows[i]) && |rows[i].chunk.embedding.value| == |query|
    ensures var s := Scanned(sqrt, t, rows, query);
            && |s| == |rows|
            && forall i :: 0 <= i < |rows| ==>
                 Searchable(t, rows[i]) && s[i] == Scored(rows[i].chunk.id, Cosine(sqrt, query, rows[i].chunk.embedding.value))
  {
    if rows != [] {
      ScannedAt(sqrt, t, rows[..|rows| - 1], query);
    }
  }

  lemma {:induction false} JoinedAt(t: Tables, near: seq<Neighbour>)
    requires forall p :: 0 <= p < |near| ==> JoinOne(t, near[p]) != []
    ensures |Joined(t, near)| == |near|
    ensures forall p :: 0 <= p < |near| ==> Joined(t, near)[p] == JoinOne(t, near[p])[0]
  {
    if near != [] {
      JoinedAt(t, near[..|near| - 1]);
    }
  }

  /** Rowids join the vector table with the chunk table one to one. */
  lemma {:induction false} VecLookup(cfg: Config, rows: seq<Row>, i: nat)
    requires Ascending(rows) && i < |rows| && rows[i].chunk.embedding.Some?
    ensures rows[i].rowid in VecOf(cfg, rows)
    ensures VecOf(cfg, rows)[rows[i].rowid] == cfg.blob(rows[i].chunk.embedding.value)
    ensures Lookup(rows, rows[i].rowid) == Some(rows[i])
  {
    if i < |rows| - 1 {
      VecLookup(cfg, rows[..|rows| - 1], i);
      assert rows[i].rowid != rows[|rows| - 1].rowid;
    }
  }

  // ── the theorem ────────────────────────────────────────────────

  /** Assumptions of the comparison: a reachable store without negligible vectors. */
  ghost predicate Comparable(sqrt: real -> real, cfg: Config, t: Tables, query: Vec) {
    && IsSqrt(sqrt) && Agree(cfg, t) && AllReady(cfg, t)
    && (forall v :: cfg.blob(v) == Normalize(sqrt, v))
    && |query| == cfg.dim && Norm(sqrt, query) >= EPSILON
    && forall i :: 0 <= i < |t.chunks| ==> Norm(sqrt, t.chunks[i].chunk.embedding.value) >= EPSILON
  }

  lemma ComparableFacts(sqrt: real -> real, cfg: Config, t: Tables, query: Vec)
    requires Comparable(sqrt, cfg, t, query)
    ensures forall i :: 0 <= i < |t.chunks| ==>
              Searchable(t, t.chunks[i]) && |t.chunks[i].chunk.embedding.value| == |query|
    ensures forall r :: r in t.vec ==> |t.vec[r]| == |query|
    ensures forall r :: r in t.vec ==> exists i :: 0 <= i < |t.chunks| && t.chunks[i].rowid == r
  {
    assert forall i :: 0 <= i < |t.chunks| ==> RowOk(t.documents, t.chunks[i]);
    VecKeys(cfg, t.chunks);
    forall r | r in t.vec ensures |t.vec[r]| == |query| {
      var i :| 0 <= i < |t.chunks| && t.chunks[i].rowid == r;
      VecLookup(cfg, t.chunks, i);
    }
  }

  /** A stored vector's squared distance and the chunk's cosine are one score. */
  lemma StoredScore(sqrt: real -> real, cfg: Config, t: Tables, query: Vec, i: nat)
    requires Comparable(sqrt, cfg, t, query) && i < |t.chunks|
    ensures var r, e := t.chunks[i].rowid, t.chunks[i].chunk.embedding.value;
            && r in t.vec && |t.vec[r]| == |query| == |e| && Lookup(t.chunks, r) == Some(t.chunks[i])
            && DistanceScore(SquaredDistance(Normalize(sqrt, query), t.vec[r])) == Cosine(sqrt, query, e)
  {
    VecLookup(cfg, t.chunks, i);
    ScoresAgree(sqrt, query, t.chunks[i].chunk.embedding.value);
  }

  lemma NeighbourFacts(t: Tables, q: Vec, k: nat, near: seq<Neighbour>, p: nat)
    requires p < |near| && (forall r :: r in t.vec ==> |t.vec[r]| == |q|) && KNearest(t, q, k, near)
    ensures near[p].rowid in t.vec
    ensures NeighbourScore(near[p]) == DistanceScore(SquaredDistance(q, t.vec[near[p].rowid]))
  {
    hide SquaredDistance, Square;
  }

  /** Each neighbour is some chunk, joined with exactly its scan entry. */
  lemma NeighbourIsScanned(sqrt: real -> real, cfg: Config, t: Tables, query: Vec, k: nat, near: seq<Neighbour>, p: nat)
    returns (i: nat)
    requires Comparable(sqrt, cfg, t, query) && p < |near|
    requires (forall r :: r in t.vec ==> |t.vec[r]| == |query|) && KNearest(t, Normalize(sqrt, query), k, near)
    ensures i < |t.chunks| && t.chunks[i].rowid == near[p].rowid
    ensures i < |t.chunks| && Searchable(t, t.chunks[i]) && |t.chunks[i].chunk.embedding.value| == |query|
    ensures JoinOne(t, near[p]) == [Scored(t.chunks[i].chunk.id, Cosine(sqrt, query, t.chunks[i].chunk.embedding.value))]
  {
    NeighbourFacts(t, Normalize(sqrt, query), k, near, p);
    hide KNearest, NeighbourScore, Square, Normalize, SquaredDistance, DistanceScore, Comparable, Cosine;
    ComparableFacts(sqrt, cfg, t, query);
    i :| 0 <= i < |t.chunks| && t.chunks[i].rowid == near[p].rowid;
    StoredScore(sqrt, cfg, t, query, i);
  }

  lemma CloserScoresHigher(a: real, b: real)
    requires 0.0 <= a <= b
    ensures Square(a) <= Square(b)
  {
    assert a * a <= a * b <= b * b;
  }

  lemma ScanCandidates(sqrt: real -> real, cfg: Config, t: Tables, query: Vec)
    requires Comparable(sqrt, cfg, t, query)
    ensures Unrepeated(Scanned(sqrt, t, t.chunks, query))
  {
    ComparableFacts(sqrt, cfg, t, query);
    ScannedAt(sqrt, t, t.chunks, query);
    assert DistinctIds(t.chunks);
  }

  /** The full scan returns best candidates that reach the threshold. */
  lemma SlowIsTop(sqrt: real -> real, cfg: Config, t: Tables, query: Vec, k: nat, threshold: real)
    requires Comparable(sqrt, cfg, t, query)
    ensures var s := Scanned(sqrt, t, t.chunks, query);
            IsTop(Reaching(Elements(s), threshold), k, Take(SortDesc(AtLeast(s, threshold)), k))
  {
    ScanCandidates(sqrt, cfg, t, query);
    hide Comparable, Scanned, Elements;
    var s := Scanned(sqrt, t, t.chunks, query);
    AtLeastElements(s, threshold);
    SortDescSpec(AtLeast(s, threshold));
    SortedTakeIsTop(SortDesc(AtLeast(s, threshold)), k);
  }

  /** Entry p of the join is entry i of the scan, and its score follows its distance. */
  ghost predicate Entry(t: Tables, s: seq<Scored>, near: seq<Neighbour>, p: nat, i: nat)
    requires p < |near| && |s| == |t.chunks|
  {
    && i < |t.chunks| && t.chunks[i].rowid == near[p].rowid
    && JoinOne(t, near[p]) == [s[i]] && s[i].score == NeighbourScore(near[p])
  }

  /** The setting of the theorem, with the scan `s` named once. */
  ghost predicate Setting(sqrt: real -> real, cfg: Config, t: Tables, query: Vec, k: nat, near: seq<Neighbour>, s: seq<Scored>) {
    && Comparable(sqrt, cfg, t, query)
    && (forall r :: r in t.vec ==> |t.vec[r]| == |query|) && KNearest(t, Normalize(sqrt, query), k, near)
    && s == Scanned(sqrt, t, t.chunks, query)
  }

  lemma JoinedScore(t: Tables, nb: Neighbour)
    ensures JoinOne(t, nb) != [] ==> JoinOne(t, nb)[0].score == NeighbourScore(nb)
  {
    hide NeighbourScore, Lookup, Searchable;
  }

  lemma NeighbourEntry(sqrt: real -> real, cfg: Config, t: Tables, query: Vec, k: nat, near: seq<Neighbour>,
                       s: seq<Scored>, p: nat)
    requires Setting(sqrt, cfg, t, query, k, near, s) && p < |near|
    ensures |s| == |t.chunks| && exists i: nat :: Entry(t, s, near, p, i)
  {
    hide Comparable, KNearest, Cosine, Normalize, JoinOne, NeighbourScore, Scanned, Lookup;
    var i := NeighbourIsScanned(sqrt, cfg, t, query, k, near, p);
    ComparableFacts(sqrt, cfg, t, query);
    ScannedAt(sqrt, t, t.chunks, query);
    JoinedScore(t, near[p]);
    assert Entry(t, s, near, p, i);
  }

  /** Nearer neighbours come first in the join. */
  lemma JoinDescends(t: Tables, s: seq<Scored>, near: seq<Neighbour>, p: nat, q: nat, i: nat, j: nat)
    requires p < q < |near| && |s| == |t.chunks| && Unrepeated(s)
    requires Entry(t, s, near, p, i) && Entry(t, s, near, q, j)
    requires near[p].rowid != near[q].rowid && 0.0 <= near[p].distance <= near[q].distance
    ensures s[i].score >= s[j].score && s[i] != s[j]
  {
    CloserScoresHigher(near[p].distance, near[q].distance);
    hide Square;
  }

  /** A chunk that is no neighbour scores no higher than any neighbour. */
  lemma OutsiderBelow(sqrt: real -> real, cfg: Config, t: Tables, query: Vec, k: nat, near: seq<Neighbour>,
                      s: seq<Scored>, p: nat, i: nat, j: nat)
    requires Setting(sqrt, cfg, t, query, k, near, s) && |s| == |t.chunks| && p < |near|
    requires Entry(t, s, near, p, i) && j < |t.chunks|
    requires forall h :: 0 <= h < |near| ==> near[h].rowid != t.chunks[j].rowid
    ensures |near| == k && s[i].score >= s[j].score
  {
    StoredScore(sqrt, cfg, t, query, j);
    ComparableFacts(sqrt, cfg, t, query);
    ScannedAt(sqrt, t, t.chunks, query);
    hide Comparable, SquaredDistance, Square, Normalize, Cosine, Scanned, Searchable, Lookup, JoinOne;
  }

  /** Place p of the join holds some entry of the scan, namely that of its neighbour's chunk. */
  ghost predicate HasEntry(t: Tables, s: seq<Scored>, near: seq<Neighbour>, u: seq<Scored>, p: nat) {
    p < |near| == |u| && |s| == |t.chunks| && exists i: nat :: Entry(t, s, near, p, i) && u[p] == s[i]
  }

  lemma JoinedEntries(sqrt: real -> real, cfg: Config, t: Tables, query: Vec, k: nat, near: seq<Neighbour>, s: seq<Scored>)
    requires Setting(sqrt, cfg, t, query, k, near, s)
    ensures |Joined(t, near)| == |near| && |s| == |t.chunks|
    ensures forall p :: 0 <= p < |near| ==> HasEntry(t, s, near, Joined(t, near), p)
  {
    ComparableFacts(sqrt, cfg, t, query);
    ScannedAt(sqrt, t, t.chunks, query);
    hide Setting;
    forall p | 0 <= p < |near| ensures JoinOne(t, near[p]) != [] {
      NeighbourEntry(sqrt, cfg, t, query, k, near, s, p);
    }
    JoinedAt(t, near);
    forall p | 0 <= p < |near| ensures HasEntry(t, s, near, Joined(t, near), p) {
      NeighbourEntry(sqrt, cfg, t, query, k, near, s, p);
      var i: nat :| Entry(t, s, near, p, i);
      assert Joined(t, near)[p] == s[i];
    }
  }

  lemma NearOrder(sqrt: real -> real, cfg: Config, t: Tables, query: Vec, k: nat, near: seq<Neighbour>, s: seq<Scored>)
    requires Setting(sqrt, cfg, t, query, k, near, s)
    ensures Unrepeated(s) && |near| <= k
    ensures forall p, q :: 0 <= p < q < |near| ==>
              near[p].rowid != near[q].rowid && 0.0 <= near[p].distance <= near[q].distance
  {
    ScanCandidates(sqrt, cfg, t, query);
    hide Square, SquaredDistance, Normalize, Agree, Scanned;
  }

  lemma JoinedDescending(sqrt: real -> real, cfg: Config, t: Tables, query: Vec, k: nat, near: seq<Neighbour>, s: seq<Scored>)
    requires Setting(sqrt, cfg, t, query, k, near, s)
    ensures Descending(Joined(t, near)) && Unrepeated(Joined(t, near))
  {
    NearOrder(sqrt, cfg, t, query, k, near, s);
    hide Setting, Entry, Unrepeated, Joined;
    JoinedEntries(sqrt, cfg, t, query, k, near, s);
    var u := Joined(t, near);
    forall p, q | 0 <= p < q < |u| ensures u[p].score >= u[q].score && u[p] != u[q] {
      assert HasEntry(t, s, near, u, p) && HasEntry(t, s, near, u, q);
      var i: nat :| Entry(t, s, near, p, i) && u[p] == s[i];
      var j: nat :| Entry(t, s, near, q, j) && u[q] == s[j];
      JoinDescends(t, s, near, p, q, i, j);
    }
    ByPairs(u);
  }

  lemma ByPairs(u: seq<Scored>)
    requires forall p, q :: 0 <= p < q < |u| ==> u[p].score >= u[q].score && u[p] != u[q]
    ensures Descending(u) && Unrepeated(u)
  {
  }

  lemma MissedRow(t: Tables, s: seq<Scored>, near: seq<Neighbour>, u: seq<Scored>, p: nat, j: nat)
    requires Ascending(t.chunks) && HasEntry(t, s, near, u, p) && j < |s| && s[j] != u[p]
    ensures near[p].rowid != t.chunks[j].rowid
  {
    var i: nat :| Entry(t, s, near, p, i) && u[p] == s[i];
    assert i != j;
  }

  lemma MissedFull(sqrt: real -> real, cfg: Config, t: Tables, query: Vec, k: nat, near: seq<Neighbour>,
                   s: seq<Scored>, j: nat)
    requires Setting(sqrt, cfg, t, query, k, near, s) && j < |t.chunks|
    requires forall p :: 0 <= p < |near| ==> near[p].rowid != t.chunks[j].rowid
    ensures |near| == k
  {
    StoredScore(sqrt, cfg, t, query, j);
    hide Comparable, Normalize, Scanned, ExactRows, NearestFirst;
    assert Farther(t, Normalize(sqrt, query), k, near, t.chunks[j].rowid);
  }

  /** A chunk missing from the join is missing because k nearer ones are there. */
  lemma MissedBelow(sqrt: real -> real, cfg: Config, t: Tables, query: Vec, k: nat, near: seq<Neighbour>,
                    s: seq<Scored>, j: nat)
    requires Setting(sqrt, cfg, t, query, k, near, s) && |s| == |t.chunks| && j < |s|
    requires |Joined(t, near)| == |near| && forall p :: 0 <= p < |near| ==> HasEntry(t, s, near, Joined(t, near), p)
    requires s[j] !in Joined(t, near)
    ensures |near| == k && forall p :: 0 <= p < |near| ==> Joined(t, near)[p].score >= s[j].score
  {
    var u := Joined(t, near);
    assert Ascending(t.chunks);
    hide Setting, Entry, HasEntry, Joined, Ascending;
    forall p | 0 <= p < |near| ensures near[p].rowid != t.chunks[j].rowid {
      MissedRow(t, s, near, u, p, j);
    }
    MissedFull(sqrt, cfg, t, query, k, near, s, j);
    forall p | 0 <= p < |near| ensures u[p].score >= s[j].score {
      MissedEntry(sqrt, cfg, t, query, k, near, s, p, j);
    }
  }

  lemma MissedEntry(sqrt: real -> real, cfg: Config, t: Tables, query: Vec, k: nat, near: seq<Neighbour>,
                    s: seq<Scored>, p: nat, j: nat)
    requires Setting(sqrt, cfg, t, query, k, near, s) && HasEntry(t, s, near, Joined(t, near), p) && j < |t.chunks|
    requires forall h :: 0 <= h < |near| ==> near[h].rowid != t.chunks[j].rowid
    ensures Joined(t, near)[p].score >= s[j].score
  {
    hide Setting, JoinOne, Joined;
    var i: nat :| Entry(t, s, near, p, i) && Joined(t, near)[p] == s[i];
    OutsiderBelow(sqrt, cfg, t, query, k, near, s, p, i, j);
  }

  lemma JoinedFromScan(t: Tables, s: seq<Scored>, near: seq<Neighbour>, u: seq<Scored>, p: nat)
    requires HasEntry(t, s, near, u, p)
    ensures u[p] in Elements(s)
  {
  }

  lemma LeftOutBelow(sqrt: real -> real, cfg: Config, t: Tables, query: Vec, k: nat, near: seq<Neighbour>,
                     s: seq<Scored>, x: Scored)
    requires Setting(sqrt, cfg, t, query, k, near, s) && x in Elements(s) && x !in Joined(t, near)
    ensures |Joined(t, near)| == k && forall p :: 0 <= p < |Joined(t, near)| ==> Joined(t, near)[p].score >= x.score
  {
    hide Setting, Entry, HasEntry, Joined;
    JoinedEntries(sqrt, cfg, t, query, k, near, s);
    var j :| 0 <= j < |s| && s[j] == x;
    MissedBelow(sqrt, cfg, t, query, k, near, s, j);
  }

  /** The joined neighbours are k best of all chunks. */
  lemma FastIsTop(sqrt: real -> real, cfg: Config, t: Tables, query: Vec, k: nat, near: seq<Neighbour>, s: seq<Scored>)
    requires Setting(sqrt, cfg, t, query, k, near, s)
    ensures IsTop(Elements(s), k, Joined(t, near))
  {
    hide Setting, HasEntry, Joined, Descending, Unrepeated, Elements;
    var u := Joined(t, near);
    NearOrder(sqrt, cfg, t, query, k, near, s);
    JoinedEntries(sqrt, cfg, t, query, k, near, s);
    JoinedDescending(sqrt, cfg, t, query, k, near, s);
    forall p | 0 <= p < |u| ensures u[p] in Elements(s) {
      JoinedFromScan(t, s, near, u, p);
    }
    forall x | x in Elements(s) && x !in u
      ensures |u| == k && forall p :: 0 <= p < |u| ==> u[p].score >= x.score
    {
      LeftOutBelow(sqrt, cfg, t, query, k, near, s, x);
    }
  }

  /** The candidates of both searches: every chunk with its cosine, if that reaches the threshold. */
  ghost function Candidates(sqrt: real -> real, t: Tables, query: Vec, threshold: real): set<Scored> {
    Reaching(Elements(Scanned(sqrt, t, t.chunks, query)), threshold)
  }

  /** Both searches list k best candidates. */
  lemma BothTop(sqrt: real -> real, cfg: Config, t: Tables, query: Vec, k: nat, near: seq<Neighbour>, threshold: real)
    requires Comparable(sqrt, cfg, t, query)
    requires (forall r :: r in t.vec ==> |t.vec[r]| == |query|) && KNearest(t, Normalize(sqrt, query), k, near)
    ensures var c, s := Candidates(sqrt, t, query, threshold), Scanned(sqrt, t, t.chunks, query);
            && IsTop(c, k, AtLeast(Joined(t, near), threshold))
            && IsTop(c, k, Take(SortDesc(AtLeast(s, threshold)), k))
  {
    hide Comparable, KNearest, Scanned, Joined, Elements, SortDesc, AtLeast, IsTop, Reaching;
    SlowIsTop(sqrt, cfg, t, query, k, threshold);
    var s := Scanned(sqrt, t, t.chunks, query);
    assert Setting(sqrt, cfg, t, query, k, near, s);
    FastIsTop(sqrt, cfg, t, query, k, near, s);
    ThresholdTop(Elements(s), k, Joined(t, near), threshold);
  }

  /**
   The indexed search refines the full scan, for every agreeing store, query, limit and threshold
   without negligible vectors: both return equally many hits, with the same ranks and scores in the
   same places; and unless a tie reaches the cut, the very same hits.
   */
  lemma FastRefinesSlow(sqrt: real -> real, cfg: Config, t: Tables, query: Vec, k: nat, near: seq<Neighbour>,
                        threshold: real)
    requires Comparable(sqrt, cfg, t, query)
    requires (forall r :: r in t.vec ==> |t.vec[r]| == |query|) && KNearest(t, Normalize(sqrt, query), k, near)
    ensures var fast, slow := FastHits(t, near, threshold), SlowHits(sqrt, t, query, k, threshold);
            && |fast| == |slow|
            && (forall i :: 0 <= i < |fast| ==> fast[i].rank == slow[i].rank == i + 1 && fast[i].score == slow[i].score)
            && (!TieAtCut(Candidates(sqrt, t, query, threshold), k) ==> fast == slow)
  {
    hide Comparable, KNearest, Scanned, Joined, SortDesc, AtLeast, IsTop, Ranked, Candidates, TieAtCut;
    BothTop(sqrt, cfg, t, query, k, near, threshold);
    var c, s := Candidates(sqrt, t, query, threshold), Scanned(sqrt, t, t.chunks, query);
    var u, v := AtLeast(Joined(t, near), threshold), Take(SortDesc(AtLeast(s, threshold)), k);
    TopUnique(c, k, u, v);
    if !TieAtCut(c, k) {
      TopDetermined(c, k, u, v);
    }
  }

  /** No candidate scores more than 1. */
  lemma ScoresBounded(sqrt: real -> real, cfg: Config, t: Tables, query: Vec, threshold: real)
    requires Comparable(sqrt, cfg, t, query)
    ensures forall x :: x in Candidates(sqrt, t, query, threshold) ==> x.score <= 1.0
  {
    var s := Scanned(sqrt, t, t.chunks, query);
    ComparableFacts(sqrt, cfg, t, query);
    ScannedAt(sqrt, t, t.chunks, query);
    hide Scanned, Cosine, Normalize, Norm;
    forall i | 0 <= i < |s| ensures s[i].score <= 1.0 {
      CosineBounds(sqrt, query, t.chunks[i].chunk.embedding.value);
    }
  }

  /** The best of k best, if something scores 1 and nothing more. */
  lemma BestScore(c: set<Scored>, k: nat, u: seq<Scored>, x: Scored)
    requires IsTop(c, k, u) && k > 0 && x in c && x.score == 1.0 && forall y :: y in c ==> y.score <= 1.0
    ensures u != [] && u[0].score == 1.0
  {
    if x in u {
      var i :| 0 <= i < |u| && u[i] == x;
      assert u[0].score >= u[i].score;
    }
    assert u[0] in c;
  }

  lemma MatchIsCandidate(sqrt: real -> real, cfg: Config, t: Tables, query: Vec, threshold: real, i: nat) returns (x: Scored)
    requires Comparable(sqrt, cfg, t, query) && i < |t.chunks| && t.chunks[i].chunk.embedding == Some(query) && threshold <= 1.0
    ensures x in Candidates(sqrt, t, query, threshold) && x == Scored(t.chunks[i].chunk.id, 1.0)
  {
    var s := Scanned(sqrt, t, t.chunks, query);
    ComparableFacts(sqrt, cfg, t, query);
    CosineBounds(sqrt, query, query);
    hide Cosine, Normalize, Comparable;
    ScannedAt(sqrt, t, t.chunks, query);
    x := s[i];
    hide Scanned;
    assert x in Elements(s);
  }

  /** A chunk whose embedding is the query scores 1 by cosine and by distance, and both searches open with a 1. */
  lemma ExactMatch(sqrt: real -> real, cfg: Config, t: Tables, query: Vec, k: nat, near: seq<Neighbour>, threshold: real,
                   i: nat)
    requires Comparable(sqrt, cfg, t, query) && i < |t.chunks| && t.chunks[i].chunk.embedding == Some(query)
    requires (forall r :: r in t.vec ==> |t.vec[r]| == |query|) && KNearest(t, Normalize(sqrt, query), k, near)
    ensures var r := t.chunks[i].rowid;
            && Cosine(sqrt, query, query) == 1.0
            && r in t.vec && DistanceScore(SquaredDistance(Normalize(sqrt, query), t.vec[r])) == 1.0
    ensures k > 0 && threshold <= 1.0 ==>
      var fast, slow := FastHits(t, near, threshold), SlowHits(sqrt, t, query, k, threshold);
      fast != [] && slow != [] && fast[0].score == slow[0].score == 1.0
  {
    CosineBounds(sqrt, query, query);
    StoredScore(sqrt, cfg, t, query, i);
    if k > 0 && threshold <= 1.0 {
      hide *;
      var x := MatchIsCandidate(sqrt, cfg, t, query, threshold, i);
      ScoresBounded(sqrt, cfg, t, query, threshold);
      BothTop(sqrt, cfg, t, query, k, near, threshold);
      var c, s := Candidates(sqrt, t, query, threshold), Scanned(sqrt, t, t.chunks, query);
      BestScore(c, k, AtLeast(Joined(t, near), threshold), x);
      BestScore(c, k, Take(SortDesc(AtLeast(s, threshold)), k), x);
      BestFirst(t, near, threshold, sqrt, query, k);
    }
  }

  lemma BestFirst(t: Tables, near: seq<Neighbour>, threshold: real, sqrt: real -> real, query: Vec, k: nat)
    ensures var u := AtLeast(Joined(t, near), threshold);
            u != [] ==> FastHits(t, near, threshold) != [] && FastHits(t, near, threshold)[0].score == u[0].score
    ensures var v := Take(SortDesc(AtLeast(Scanned(sqrt, t, t.chunks, query), threshold)), k);
            v != [] ==> SlowHits(sqrt, t, query, k, threshold) != [] && SlowHits(sqrt, t, query, k, threshold)[0].score == v[0].score
  {
    hide Joined, AtLeast, SortDesc, Take, Scanned;
  }

  // ── what may be found ──────────────────────────────────────────

  /** The id is that of a ready chunk of an active document. */
  ghost predicate FromActive(t: Tables, id: ChunkId) {
    exists r :: r in t.chunks && r.chunk.id == id && r.chunk.docId in t.documents
                && t.documents[r.chunk.docId].status == Active && r.chunk.ready && r.chunk.embedding.Some?
  }

  lemma {:induction false} LookupIn(rows: seq<Row>, rowid: nat)
    ensures Lookup(rows, rowid).Some? ==> Lookup(rows, rowid).value in rows && Lookup(rows, rowid).value.rowid == rowid
  {
    if rows != [] {
      LookupIn(rows[..|rows| - 1], rowid);
    }
  }

  lemma {:induction false} JoinedActive(t: Tables, near: seq<Neighbour>)
    ensures forall x :: x in Joined(t, near) ==> FromActive(t, x.id)
  {
    if near != [] {
      JoinedActive(t, near[..|near| - 1]);
      LookupIn(t.chunks, near[|near| - 1].rowid);
    }
  }

  lemma {:induction false} ScannedActive(sqrt: real -> real, t: Tables, rows: seq<Row>, query: Vec)
    requires forall r :: r in rows ==> r in t.chunks
    ensures forall x :: x in Scanned(sqrt, t, rows, query) ==> FromActive(t, x.id)
  {
    if rows != [] {
      ScannedActive(sqrt, t, rows[..|rows| - 1], query);
      assert rows[|rows| - 1] in rows;
    }
  }

  lemma {:induction false} AtLeastFrom(s: seq<Scored>, threshold: real)
    ensures forall x :: x in AtLeast(s, threshold) <==> x in s && x.score >= threshold
  {
    if s != [] {
      AtLeastFrom(s[..|s| - 1], threshold);
      assert s == s[..|s| - 1] + [s[|s| - 1]];
    }
  }

  lemma {:induction false} InsertDescFrom(s: seq<Scored>, x: Scored)
    ensures forall y :: y in InsertDesc(s, x) <==> y in s || y == x
  {
    if s != [] {
      InsertDescFrom(s[..|s| - 1], x);
      FrontLast(s);
    }
  }

  lemma {:induction false} SortDescFrom(s: seq<Scored>)
    ensures forall x :: x in SortDesc(s) <==> x in s
  {
    if s != [] {
      SortDescFrom(s[..|s| - 1]);
      InsertDescFrom(SortDesc(s[..|s| - 1]), s[|s| - 1]);
      FrontLast(s);
    }
  }

  /** Whatever the tables hold, both searches find ready chunks of active documents only, at the threshold or above. */
  lemma HitsAreActive(sqrt: real -> real, t: Tables, query: Vec, near: seq<Neighbour>, k: nat, threshold: real)
    ensures forall h :: h in FastHits(t, near, threshold) || h in SlowHits(sqrt, t, query, k, threshold) ==>
              FromActive(t, h.id) && h.score >= threshold
  {
    hide Joined, Scanned, AtLeast, FromActive, SortDesc, Ranked;
    JoinedActive(t, near);
    ScannedActive(sqrt, t, t.chunks, query);
    var u, s := AtLeast(Joined(t, near), threshold), AtLeast(Scanned(sqrt, t, t.chunks, query), threshold);
    AtLeastFrom(Joined(t, near), threshold);
    AtLeastFrom(Scanned(sqrt, t, t.chunks, query), threshold);
    SortDescFrom(s);
    var v := Take(SortDesc(s), k);
    RankedFrom(t, u, threshold);
    RankedFrom(t, v, threshold);
  }

  lemma RankedFrom(t: Tables, s: seq<Scored>, threshold: real)
    requires forall x :: x in s ==> FromActive(t, x.id) && x.score >= threshold
    ensures forall h :: h in Ranked(s) ==> FromActive(t, h.id) && h.score >= threshold
  {
    hide FromActive;
    assert forall i :: 0 <= i < |s| ==> s[i] in s;
  }
}
