/** The agreement of the document store's four tables, which every change of a whole document keeps. */
module TableAgreement {
  import opened Text
  import opened VectorMath
  import opened DocStore

  // ── agreement of the tables ────────────────────────────────────

  function FtsOf(rows: seq<Row>): seq<FtsRow> {
    if rows == [] then [] else FtsOf(rows[..|rows| - 1]) + [Fts(rows[|rows| - 1].chunk)]
  }

  function Put<K, V>(m: map<K, V>, k: K, v: Option<V>): map<K, V> {
    if v.Some? then m[k := v.value] else m
  }

  function BlobOf(cfg: Config, c: Chunk): Option<Vec> {
    if c.embedding.Some? then Some(cfg.blob(c.embedding.value)) else None
  }

  function VecOf(cfg: Config, rows: seq<Row>): map<nat, Vec> {
    if rows == [] then map[]
    else Put(VecOf(cfg, rows[..|rows| - 1]), rows[|rows| - 1].rowid, BlobOf(cfg, rows[|rows| - 1].chunk))
  }

  ghost predicate Ascending(rows: seq<Row>) {
    forall i, j :: 0 <= i < j < |rows| ==> rows[i].rowid < rows[j].rowid
  }

  ghost predicate DistinctIds(rows: seq<Row>) {
    forall i, j :: 0 <= i < j < |rows| ==> rows[i].chunk.id != rows[j].chunk.id
  }

  ghost predicate RowOk(documents: map<DocId, Document>, r: Row) {
    var c := r.chunk;
    && c.docId in documents && documents[c.docId].status == Active
    && c.docId == DocId(c.path) && c.id.path == c.path
  }

  /**
   The four tables agree: the full-text and vector tables are exactly what the chunk table
   determines, chunks belong to active documents, and rowids and chunk ids are unique.
   */
  ghost predicate Agree(cfg: Config, t: Tables) {
    && DocumentsOk(t.documents)
    && RowsOk(t.documents, t.chunks)
    && Ascending(t.chunks) && DistinctIds(t.chunks)
    && t.fts == FtsOf(t.chunks)
    && t.vec == VecOf(cfg, t.chunks)
  }

  /** What the indexer passes for a document: an active record and chunks of that document. */
  ghost predicate Belongs(doc: Document, chunks: seq<Chunk>) {
    && doc.docId == DocId(doc.path) && doc.status == Active
    && (forall i :: 0 <= i < |chunks| ==>
          chunks[i].docId == doc.docId && chunks[i].path == doc.path && chunks[i].id.path == doc.path)
    && (forall i, j :: 0 <= i < j < |chunks| ==> chunks[i].id != chunks[j].id)
  }

  lemma WithoutSnoc(front: seq<Row>, last: Row, ids: set<DocId>)
    ensures Without(front + [last], ids) == if last.chunk.docId in ids then Without(front, ids) else Without(front, ids) + [last]
  {
    assert (front + [last])[..|front|] == front;
  }

  lemma {:induction false} WithoutMembers(rows: seq<Row>, ids: set<DocId>)
    ensures forall r :: r in Without(rows, ids) ==> r in rows && r.chunk.docId !in ids
  {
    if rows != [] {
      var front, last := rows[..|rows| - 1], rows[|rows| - 1];
      assert rows == front + [last];
      WithoutMembers(front, ids);
      WithoutSnoc(front, last, ids);
    }
  }

  lemma UniqueSnoc(w: seq<Row>, front: seq<Row>, last: Row)
    requires forall r :: r in w ==> r in front
    ensures Ascending(front + [last]) ==> Ascending(front) && (Ascending(w) ==> Ascending(w + [last]))
    ensures DistinctIds(front + [last]) ==> DistinctIds(front) && (DistinctIds(w) ==> DistinctIds(w + [last]))
  {
    var rows := front + [last];
    assert rows[|front|] == last && forall i :: 0 <= i < |front| ==> rows[i] == front[i];
    forall i | 0 <= i < |w|
      ensures Ascending(rows) ==> w[i].rowid < last.rowid
      ensures DistinctIds(rows) ==> w[i].chunk.id != last.chunk.id
    {
      assert w[i] in front;
      var j :| 0 <= j < |front| && front[j] == w[i];
      assert rows[j] == w[i];
    }
  }

  lemma {:induction false} WithoutUnique(rows: seq<Row>, ids: set<DocId>)
    ensures Ascending(rows) ==> Ascending(Without(rows, ids))
    ensures DistinctIds(rows) ==> DistinctIds(Without(rows, ids))
  {
    if rows != [] {
      var front, last := rows[..|rows| - 1], rows[|rows| - 1];
      assert rows == front + [last];
      WithoutUnique(front, ids);
      WithoutMembers(front, ids);
      WithoutSnoc(front, last, ids);
      hide Ascending, DistinctIds, Without;
      UniqueSnoc(Without(front, ids), front, last);
    }
  }

  lemma WithoutRows(rows: seq<Row>, ids: set<DocId>)
    ensures forall i :: 0 <= i < |Without(rows, ids)| ==>
              Without(rows, ids)[i] in rows && Without(rows, ids)[i].chunk.docId !in ids
    ensures Ascending(rows) ==> Ascending(Without(rows, ids))
    ensures DistinctIds(rows) ==> DistinctIds(Without(rows, ids))
  {
    WithoutMembers(rows, ids);
    WithoutUnique(rows, ids);
  }

  lemma {:induction false} WithoutFts(rows: seq<Row>, ids: set<DocId>, paths: set<string>)
    requires forall i :: 0 <= i < |rows| ==> (rows[i].chunk.docId in ids <==> rows[i].chunk.path in paths)
    ensures FtsWithout(FtsOf(rows), paths) == FtsOf(Without(rows, ids))
  {
    if rows != [] {
      var front, last := rows[..|rows| - 1], rows[|rows| - 1];
      WithoutFts(front, ids, paths);
      assert FtsOf(rows)[..|FtsOf(rows)| - 1] == FtsOf(front);
      if last.chunk.docId !in ids {
        var w := Without(rows, ids);
        assert w[..|w| - 1] == Without(front, ids);
      } else {
        assert Without(rows, ids) == Without(front, ids);
      }
    }
  }

  lemma {:induction false} VecKeys(cfg: Config, rows: seq<Row>)
    ensures forall k :: k in VecOf(cfg, rows) ==> exists i :: 0 <= i < |rows| && rows[i].rowid == k
  {
    if rows != [] {
      VecKeys(cfg, rows[..|rows| - 1]);
      forall k | k in VecOf(cfg, rows) ensures exists i :: 0 <= i < |rows| && rows[i].rowid == k {
        if k in VecOf(cfg, rows[..|rows| - 1]) {
          var i :| 0 <= i < |rows| - 1 && rows[..|rows| - 1][i].rowid == k;
          assert rows[i].rowid == k;
        }
      }
    }
  }

  lemma RowidsSnoc(front: seq<Row>, last: Row, ids: set<DocId>)
    ensures Rowids(front + [last], ids) == Rowids(front, ids) + if last.chunk.docId in ids then {last.rowid} else {}
  {
    var rows := front + [last];
    assert forall i :: 0 <= i < |front| ==> rows[i] == front[i];
    assert rows[|front|] == last;
    forall r | r in Rowids(front, ids) ensures r in Rowids(rows, ids) {
      var i :| 0 <= i < |front| && front[i].chunk.docId in ids && front[i].rowid == r;
      assert rows[i].rowid == r;
    }
  }

  lemma VecOfSnoc(cfg: Config, front: seq<Row>, last: Row)
    ensures VecOf(cfg, front + [last]) == Put(VecOf(cfg, front), last.rowid, BlobOf(cfg, last.chunk))
  {
    assert (front + [last])[..|front|] == front;
  }

  lemma FreshRowid(cfg: Config, front: seq<Row>, last: Row, ids: set<DocId>)
    requires Ascending(front + [last])
    ensures last.rowid !in VecOf(cfg, front) && last.rowid !in Rowids(front, ids)
  {
    VecKeys(cfg, front);
    assert forall i :: 0 <= i < |front| ==> (front + [last])[i] == front[i];
    assert (front + [last])[|front|] == last;
  }

  lemma MapWithout<K, V>(m: map<K, V>, k: K, e: Option<V>, s: set<K>, out: bool)
    requires k !in m && k !in s
    ensures Put(m, k, e) - (s + if out then {k} else {}) == if out then m - s else Put(m - s, k, e)
  {
  }

  /** Deleting the rowids of some documents leaves the vectors of the chunks that stay. */
  ghost predicate VecInStep(cfg: Config, rows: seq<Row>, ids: set<DocId>) {
    VecOf(cfg, Without(rows, ids)) == VecOf(cfg, rows) - Rowids(rows, ids)
  }

  lemma {:induction false} WithoutVec(cfg: Config, rows: seq<Row>, ids: set<DocId>)
    requires Ascending(rows)
    ensures VecInStep(cfg, rows, ids)
  {
    if rows != [] {
      hide VecOf, Without, Rowids, Put, BlobOf;
      var front, last := rows[..|rows| - 1], rows[|rows| - 1];
      assert rows == front + [last];
      WithoutVec(cfg, front, ids);
      FreshRowid(cfg, front, last, ids);
      RowidsSnoc(front, last, ids);
      VecOfSnoc(cfg, front, last);
      WithoutSnoc(front, last, ids);
      VecOfSnoc(cfg, Without(front, ids), last);
      MapWithout(VecOf(cfg, front), last.rowid, BlobOf(cfg, last.chunk), Rowids(front, ids), last.chunk.docId in ids);
    }
  }

  ghost predicate DocumentsOk(documents: map<DocId, Document>) {
    forall id :: id in documents ==> documents[id].docId == id == DocId(documents[id].path)
  }

  /** t without the chunks of some documents, under a new document table. */
  function Removed(t: Tables, documents: map<DocId, Document>, ids: set<DocId>, paths: set<string>): Tables {
    Tables(documents, Without(t.chunks, ids), FtsWithout(t.fts, paths), t.vec - Rowids(t.chunks, ids))
  }

  /** The documents that stay keep their records. */
  ghost predicate KeepsOthers(before: map<DocId, Document>, after: map<DocId, Document>, gone: set<DocId>) {
    forall id :: id in before && id !in gone ==> id in after && after[id] == before[id]
  }

  ghost predicate RowsOk(documents: map<DocId, Document>, rows: seq<Row>) {
    forall i :: 0 <= i < |rows| ==> RowOk(documents, rows[i])
  }

  lemma RemovedRowsOk(t: Tables, documents: map<DocId, Document>, ids: set<DocId>)
    requires RowsOk(t.documents, t.chunks)
    requires KeepsOthers(t.documents, documents, ids)
    ensures RowsOk(documents, Without(t.chunks, ids))
  {
    WithoutRows(t.chunks, ids);
  }

  /** Removing whole documents from the chunk, full-text and vector tables keeps them in step. */
  lemma RemovedAgrees(cfg: Config, t: Tables, documents: map<DocId, Document>, ids: set<DocId>, paths: set<string>)
    requires Agree(cfg, t) && DocumentsOk(documents)
    requires KeepsOthers(t.documents, documents, ids)
    requires forall p :: DocId(p) in t.documents ==> (DocId(p) in ids <==> p in paths)
    ensures Agree(cfg, Removed(t, documents, ids, paths))
  {
    assert forall i :: 0 <= i < |t.chunks| ==> RowOk(t.documents, t.chunks[i]);
    RemovedRowsOk(t, documents, ids);
    WithoutRows(t.chunks, ids);
    WithoutFts(t.chunks, ids, paths);
    WithoutVec(cfg, t.chunks, ids);
    hide Without, FtsWithout, FtsOf, VecOf, Rowids, RowOk, Ascending, DistinctIds;
  }

  lemma ClearedAgrees(cfg: Config, t: Tables, doc: Document)
    requires Agree(cfg, t) && doc.docId == DocId(doc.path) && doc.status == Active
    ensures Agree(cfg, Cleared(t, doc))
  {
    RemovedAgrees(cfg, t, t.documents[doc.docId := doc], {doc.docId}, {doc.path});
  }

  lemma InsertAgrees(cfg: Config, t: Tables, c: Chunk)
    requires Agree(cfg, t) && Insert(cfg, t, c).Some?
    requires c.docId == DocId(c.path) && c.id.path == c.path && t.documents[c.docId].status == Active
    ensures Agree(cfg, Insert(cfg, t, c).value)
  {
    var e := Insert(cfg, t, c).value;
    assert e.chunks[..|e.chunks| - 1] == t.chunks;
    forall i | 0 <= i < |t.chunks| ensures t.chunks[i].chunk.id != c.id && t.chunks[i].rowid < NextRowid(t.chunks) {
      assert t.chunks[i].chunk.id in ChunkIds(t.chunks);
    }
  }

  /** e is t with the chunks inserted after those it had. */
  ghost predicate Extended(t: Tables, e: Tables, chunks: seq<Chunk>) {
    && e.documents == t.documents
    && |e.chunks| == |t.chunks| + |chunks| && e.chunks[..|t.chunks|] == t.chunks
    && (forall i :: 0 <= i < |chunks| ==> e.chunks[|t.chunks| + i].chunk == chunks[i])
  }

  lemma NewIdIsFree(cfg: Config, t: Tables, e: Tables, doc: Document, front: seq<Chunk>, last: Chunk)
    requires Agree(cfg, t) && Belongs(doc, front + [last]) && Extended(t, e, front)
    requires forall i :: 0 <= i < |t.chunks| ==> t.chunks[i].chunk.docId != doc.docId
    ensures last.id !in ChunkIds(e.chunks)
  {
    assert (front + [last])[|front|] == last;
    forall i | 0 <= i < |e.chunks| ensures e.chunks[i].chunk.id != last.id {
      if i < |t.chunks| {
        assert e.chunks[i] == e.chunks[..|t.chunks|][i] == t.chunks[i];
        assert RowOk(t.documents, t.chunks[i]);
      } else {
        assert e.chunks[|t.chunks| + (i - |t.chunks|)].chunk == front[i - |t.chunks|] == (front + [last])[i - |t.chunks|];
      }
    }
  }

  lemma InsertExtends(cfg: Config, t: Tables, e: Tables, front: seq<Chunk>, last: Chunk)
    requires Extended(t, e, front) && Insert(cfg, e, last).Some?
    ensures Extended(t, Insert(cfg, e, last).value, front + [last])
  {
    var f := Insert(cfg, e, last).value;
    assert f.chunks[..|t.chunks|] == e.chunks[..|t.chunks|];
  }

  /** Nothing can refuse a document's own chunks once its old ones are gone. */
  lemma {:induction false} InsertAllAgrees(cfg: Config, t: Tables, doc: Document, chunks: seq<Chunk>)
    requires Agree(cfg, t) && Belongs(doc, chunks) && doc.docId in t.documents && t.documents[doc.docId] == doc
    requires forall i :: 0 <= i < |t.chunks| ==> t.chunks[i].chunk.docId != doc.docId
    ensures var r := InsertAll(cfg, t, chunks);
            r.Some? && Agree(cfg, r.value) && Extended(t, r.value, chunks)
  {
    if chunks != [] {
      hide Agree;
      var front, last := chunks[..|chunks| - 1], chunks[|chunks| - 1];
      assert chunks == front + [last];
      InsertAllAgrees(cfg, t, doc, front);
      var e := InsertAll(cfg, t, front).value;
      NewIdIsFree(cfg, t, e, doc, front, last);
      assert e.documents == t.documents && Insert(cfg, e, last).Some?;
      InsertAgrees(cfg, e, last);
      InsertExtends(cfg, t, e, front, last);
    }
  }
}
