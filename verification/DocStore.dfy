/**
 The tables of doc_rag/store.py and the transactions that keep them in step.

 Digests are free constructors, so equal digests mean equal inputs.  A transaction either
 produces new tables or, on an exception, is rolled back.  chunks and chunks_fts are listed in
 rowid order; a new chunk takes the rowid after the largest one.
 */
module DocStore {
  import opened Text
  import opened VectorMath

  datatype Hash = Sha256(text: string)
  datatype DocId = DocId(path: string)
  datatype ChunkId = ChunkId(path: string, heading: string, index: nat, hash: Hash)
  datatype Status = Active | Deleted

  datatype Document = Document(docId: DocId, path: string, title: string, hash: Hash, status: Status)
  datatype Chunk = Chunk(id: ChunkId, docId: DocId, path: string, title: string, heading: string, index: nat,
                         content: string, docHash: Hash, embedding: Option<Vec>, ready: bool)

  datatype Row = Row(rowid: nat, chunk: Chunk)
  datatype FtsRow = FtsRow(id: ChunkId, path: string, heading: string, content: string)
  datatype Tables = Tables(documents: map<DocId, Document>, chunks: seq<Row>, fts: seq<FtsRow>, vec: map<nat, Vec>)

  /** Dimension of the vec0 table, and what _emb_to_blob makes of a vector. */
  datatype Config = Config(dim: nat, blob: Vec -> Vec)

  // ── queries ────────────────────────────────────────────────────

  function Without(rows: seq<Row>, ids: set<DocId>): seq<Row> {
    if rows == [] then []
    else
      var last := rows[|rows| - 1];
      Without(rows[..|rows| - 1], ids) + if last.chunk.docId in ids then [] else [last]
  }

  function FtsWithout(fts: seq<FtsRow>, paths: set<string>): seq<FtsRow> {
    if fts == [] then []
    else
      var last := fts[|fts| - 1];
      FtsWithout(fts[..|fts| - 1], paths) + if last.path in paths then [] else [last]
  }

  function Rowids(rows: seq<Row>, ids: set<DocId>): set<nat> {
    set i | 0 <= i < |rows| && rows[i].chunk.docId in ids :: rows[i].rowid
  }

  /** The chunks of one document, in the order they were inserted. */
  function ChunksOf(rows: seq<Row>, id: DocId): seq<Chunk> {
    if rows == [] then []
    else
      var last := rows[|rows| - 1];
      ChunksOf(rows[..|rows| - 1], id) + if last.chunk.docId == id then [last.chunk] else []
  }

  function ChunkIds(rows: seq<Row>): set<ChunkId> {
    set i | 0 <= i < |rows| :: rows[i].chunk.id
  }

  function NextRowid(rows: seq<Row>): nat {
    if rows == [] then 1 else rows[|rows| - 1].rowid + 1
  }

  function Fts(c: Chunk): FtsRow {
    FtsRow(c.id, c.path, c.heading, c.content)
  }

  // ── transactions as functions on the tables ────────────────────

  function Resolved(chunks: seq<Chunk>, embeddings: Option<seq<Vec>>, i: nat): Option<Vec>
    requires i < |chunks| && (embeddings.Some? ==> |embeddings.value| == |chunks|)
  {
    if embeddings.Some? then Some(embeddings.value[i]) else chunks[i].embedding
  }

  predicate EmbeddingsOk(cfg: Config, chunks: seq<Chunk>, embeddings: Option<seq<Vec>>) {
    && (embeddings.Some? ==> |embeddings.value| == |chunks|)
    && forall i :: 0 <= i < |chunks| ==>
         var e := Resolved(chunks, embeddings, i);
         (chunks[i].ready ==> e.Some?) && (e.Some? ==> |e.value| == cfg.dim)
  }

  /** The chunks with the embeddings they will be stored with. */
  function ToStore(chunks: seq<Chunk>, embeddings: Option<seq<Vec>>): seq<Chunk>
    requires embeddings.Some? ==> |embeddings.value| == |chunks|
  {
    seq(|chunks|, i requires 0 <= i < |chunks| => chunks[i].(embedding := Resolved(chunks, embeddings, i)))
  }

  /** One INSERT into each table; the primary key and the foreign key may refuse it. */
  function Insert(cfg: Config, t: Tables, c: Chunk): Option<Tables> {
    if c.id in ChunkIds(t.chunks) || c.docId !in t.documents then None
    else
      var rowid := NextRowid(t.chunks);
      Some(Tables(t.documents, t.chunks + [Row(rowid, c)], t.fts + [Fts(c)],
                  if c.embedding.Some? then t.vec[rowid := cfg.blob(c.embedding.value)] else t.vec))
  }

  function InsertAll(cfg: Config, t: Tables, chunks: seq<Chunk>): Option<Tables> {
    if chunks == [] then Some(t)
    else
      var front := InsertAll(cfg, t, chunks[..|chunks| - 1]);
      if front.None? then None else Insert(cfg, front.value, chunks[|chunks| - 1])
  }

  /** The tables with the document's row written and its old chunks gone. */
  function Cleared(t: Tables, doc: Document): Tables {
    Tables(t.documents[doc.docId := doc], Without(t.chunks, {doc.docId}), FtsWithout(t.fts, {doc.path}),
           t.vec - Rowids(t.chunks, {doc.docId}))
  }

  predicate PathTaken(t: Tables, doc: Document) {
    exists id :: id in t.documents && id != doc.docId && t.documents[id].path == doc.path
  }

  function Replace(cfg: Config, t: Tables, doc: Document, chunks: seq<Chunk>, embeddings: Option<seq<Vec>>): Option<Tables> {
    if !EmbeddingsOk(cfg, chunks, embeddings) || PathTaken(t, doc) then None
    else InsertAll(cfg, Cleared(t, doc), ToStore(chunks, embeddings))
  }

  function Missing(t: Tables, active: set<string>): set<DocId> {
    set id | id in t.documents && t.documents[id].status == Active && t.documents[id].path !in active
  }

  function PathsOf(documents: map<DocId, Document>, ids: set<DocId>): set<string> {
    set id | id in ids && id in documents :: documents[id].path
  }

  function MarkMissing(t: Tables, active: set<string>): Tables {
    var gone := Missing(t, active);
    Tables(map id | id in t.documents :: if id in gone then t.documents[id].(status := Deleted) else t.documents[id],
           Without(t.chunks, gone),
           FtsWithout(t.fts, PathsOf(t.documents, gone)),
           t.vec - Rowids(t.chunks, gone))
  }

  /** The row holds chunk c with embedding v, and the vector table what the row's rowid needs. */
  predicate RowStores(cfg: Config, vec: map<nat, Vec>, row: Row, c: Chunk, v: Option<Vec>) {
    row.chunk == c.(embedding := v) && (v.Some? ==> row.rowid in vec && vec[row.rowid] == cfg.blob(v.value))
  }

  /** The last rows hold these chunks: chunk i with the i-th embedding given, or its own if none were given. */
  ghost predicate StoredLast(cfg: Config, t: Tables, chunks: seq<Chunk>, embeddings: Option<seq<Vec>>) {
    var n := |t.chunks| - |chunks|;
    && n >= 0 && (embeddings.Some? ==> |embeddings.value| == |chunks|)
    && forall i :: 0 <= i < |chunks| ==>
         RowStores(cfg, t.vec, t.chunks[n + i], chunks[i], if embeddings.Some? then Some(embeddings.value[i]) else chunks[i].embedding)
  }

  /** e is t with a row for each chunk, the rowids counted up. */
  ghost predicate RowsAdded(cfg: Config, t: Tables, e: Tables, chunks: seq<Chunk>) {
    && |e.chunks| == |t.chunks| + |chunks| && NextRowid(e.chunks) == NextRowid(t.chunks) + |chunks|
    && (forall i :: 0 <= i < |chunks| ==> RowIs(cfg, e.vec, e.chunks[|t.chunks| + i], NextRowid(t.chunks) + i, chunks[i]))
  }

  predicate RowIs(cfg: Config, vec: map<nat, Vec>, row: Row, rowid: nat, c: Chunk) {
    row.rowid == rowid && RowStores(cfg, vec, row, c, c.embedding)
  }

  lemma RowAdded(cfg: Config, t: Tables, e: Tables, front: seq<Chunk>, last: Chunk)
    requires RowsAdded(cfg, t, e, front) && Insert(cfg, e, last).Some?
    ensures RowsAdded(cfg, t, Insert(cfg, e, last).value, front + [last])
  {
    var f, next := Insert(cfg, e, last).value, NextRowid(t.chunks);
    hide ChunkIds, NextRowid;
    forall i | 0 <= i < |front| ensures RowIs(cfg, f.vec, f.chunks[|t.chunks| + i], next + i, front[i]) {
      assert RowIs(cfg, e.vec, e.chunks[|t.chunks| + i], next + i, front[i]);
    }
    assert RowIs(cfg, f.vec, f.chunks[|t.chunks| + |front|], next + |front|, last);
  }

  lemma {:induction false} InsertAllRows(cfg: Config, t: Tables, chunks: seq<Chunk>)
    requires InsertAll(cfg, t, chunks).Some?
    ensures RowsAdded(cfg, t, InsertAll(cfg, t, chunks).value, chunks)
  {
    if chunks != [] {
      var front, last := chunks[..|chunks| - 1], chunks[|chunks| - 1];
      InsertAllRows(cfg, t, front);
      RowAdded(cfg, t, InsertAll(cfg, t, front).value, front, last);
      assert chunks == front + [last];
      hide RowsAdded, Insert;
    }
  }

  /** A replacement stores every chunk with its own embedding. */
  lemma ReplaceStores(cfg: Config, t: Tables, doc: Document, chunks: seq<Chunk>, embeddings: Option<seq<Vec>>)
    requires Replace(cfg, t, doc, chunks, embeddings).Some?
    ensures StoredLast(cfg, Replace(cfg, t, doc, chunks, embeddings).value, chunks, embeddings)
  {
    hide InsertAll, Cleared, NextRowid, PathTaken;
    assert EmbeddingsOk(cfg, chunks, embeddings);
    var stored, e := ToStore(chunks, embeddings), Replace(cfg, t, doc, chunks, embeddings).value;
    InsertAllRows(cfg, Cleared(t, doc), stored);
    hide EmbeddingsOk, Replace;
    var n := |Cleared(t, doc).chunks|;
    forall i | 0 <= i < |chunks|
      ensures RowStores(cfg, e.vec, e.chunks[n + i], chunks[i], if embeddings.Some? then Some(embeddings.value[i]) else chunks[i].embedding)
    {
      assert RowIs(cfg, e.vec, e.chunks[n + i], NextRowid(Cleared(t, doc).chunks) + i, stored[i]);
    }
  }

  // ── the code ───────────────────────────────────────────────────

  class DocRagStore {
    const cfg: Config
    var documents: map<DocId, Document>
    var chunks: seq<Row>
    var fts: seq<FtsRow>
    var vec: map<nat, Vec>

    function State(): Tables reads this {
      Tables(documents, chunks, fts, vec)
    }

    constructor (cfg: Config)
      ensures this.cfg == cfg && State() == Tables(map[], [], [], map[])
    {
      this.cfg := cfg;
      documents, chunks, fts, vec := map[], [], [], map[];
    }

    method Rollback(t: Tables)
      modifies this
      ensures State() == t
    {
      documents, chunks, fts, vec := t.documents, t.chunks, t.fts, t.vec;
    }

    method ValidateEmbeddings(records: seq<Chunk>, embeddings: Option<seq<Vec>>) returns (resolved: Option<seq<Option<Vec>>>)
      ensures resolved.Some? <==> EmbeddingsOk(cfg, records, embeddings)
      ensures resolved.Some? ==>
        && |resolved.value| == |records| && (embeddings.Some? ==> |embeddings.value| == |records|)
        && (forall i :: 0 <= i < |records| ==>
              resolved.value[i] == if embeddings.Some? then Some(embeddings.value[i]) else records[i].embedding)
    {
      if embeddings.Some? && |embeddings.value| != |records| {
        return None;
      }
      var out: seq<Option<Vec>> := [];
      for i := 0 to |records|
        invariant |out| == i
        invariant forall j :: 0 <= j < i ==>
                    var e := Resolved(records, embeddings, j);
                    out[j] == e && (records[j].ready ==> e.Some?) && (e.Some? ==> |e.value| == cfg.dim)
      {
        var e := if embeddings.Some? then Some(embeddings.value[i]) else records[i].embedding;
        assert e == Resolved(records, embeddings, i);
        if records[i].ready {
          if e.None? || |e.value| != cfg.dim {
            return None;
          }
        } else if e.Some? && |e.value| != cfg.dim {
          return None;
        }
        out := out + [e];
      }
      return Some(out);
    }

    method InsertChunkNoCommit(c: Chunk, embedding: Option<Vec>) returns (ok: bool)
      modifies this
      ensures var r := Insert(cfg, old(State()), c.(embedding := embedding));
              ok == r.Some? && State() == if ok then r.value else old(State())
    {
      if (exists i :: 0 <= i < |chunks| && chunks[i].chunk.id == c.id) || c.docId !in documents {
        return false;
      }
      var rowid := NextRowid(chunks);
      chunks := chunks + [Row(rowid, c.(embedding := embedding))];
      fts := fts + [FtsRow(c.id, c.path, c.heading, c.content)];
      if embedding.Some? {
        vec := vec[rowid := cfg.blob(embedding.value)];
      }
      return true;
    }

    /** The loop of inserts; it stops at the first one refused. */
    method InsertChunksNoCommit(records: seq<Chunk>, resolved: seq<Option<Vec>>) returns (ok: bool)
      requires |records| == |resolved|
      modifies this
      ensures var stored := seq(|records|, i requires 0 <= i < |records| => records[i].(embedding := resolved[i]));
              var r := InsertAll(cfg, old(State()), stored);
              ok == r.Some? && (ok ==> State() == r.value)
    {
      hide Insert;
      ghost var before := State();
      ghost var stored := seq(|records|, i requires 0 <= i < |records| => records[i].(embedding := resolved[i]));
      for i := 0 to |records|
        invariant InsertAll(cfg, before, stored[..i]) == Some(State())
      {
        ok := InsertChunkNoCommit(records[i], resolved[i]);
        assert stored[..i + 1][..i] == stored[..i];
        if !ok {
          FailureStays(cfg, before, stored, i + 1);
          return;
        }
      }
      assert stored[..|records|] == stored;
      return true;
    }

    /** Either the whole replacement is committed or nothing changes. */
    method ReplaceDocumentChunks(doc: Document, records: seq<Chunk>, embeddings: Option<seq<Vec>>) returns (ok: bool)
      modifies this
      ensures var r := Replace(cfg, old(State()), doc, records, embeddings);
              ok == r.Some? && State() == if ok then r.value else old(State())
      ensures ok ==> StoredLast(cfg, State(), records, embeddings)
    {
      var resolved := ValidateEmbeddings(records, embeddings);
      if resolved.None? {
        return false;
      }
      var before := State();
      if exists id :: id in documents && id != doc.docId && documents[id].path == doc.path {
        return false;
      }
      var oldRowids := Rowids(chunks, {doc.docId});
      documents := documents[doc.docId := doc];
      chunks := Without(chunks, {doc.docId});
      fts := FtsWithout(fts, {doc.path});
      vec := vec - oldRowids;
      ok := InsertChunksNoCommit(records, resolved.value);
      assert seq(|records|, i requires 0 <= i < |records| => records[i].(embedding := resolved.value[i]))
          == ToStore(records, embeddings);
      if ok {
        ReplaceStores(cfg, before, doc, records, embeddings);
      } else {
        Rollback(before);
      }
    }

    /** Documents whose files are gone lose their chunks and are marked deleted. */
    method MarkMissingDocumentsDeleted(active: set<string>) returns (n: nat)
      modifies this
      ensures State() == MarkMissing(old(State()), active)
      ensures n == |Missing(old(State()), active)|
    {
      ghost var before := State();
      var gone := set id | id in documents && documents[id].status == Active && documents[id].path !in active;
      assert gone == Missing(before, active);
      if gone == {} {
        NothingMissing(before, active);
        return 0;
      }
      vec := vec - Rowids(chunks, gone);
      chunks := Without(chunks, gone);
      fts := FtsWithout(fts, PathsOf(documents, gone));
      documents := map id | id in documents :: if id in gone then documents[id].(status := Deleted) else documents[id];
      return |gone|;
    }
  }

  lemma {:induction false} FailureStays(cfg: Config, t: Tables, chunks: seq<Chunk>, n: nat)
    requires n <= |chunks| && InsertAll(cfg, t, chunks[..n]) == None
    ensures InsertAll(cfg, t, chunks) == None
    decreases |chunks|
  {
    if n < |chunks| {
      var front := chunks[..|chunks| - 1];
      assert front[..n] == chunks[..n];
      FailureStays(cfg, t, front, n);
    } else {
      assert chunks[..n] == chunks;
    }
  }

  lemma {:induction false} WithoutNone(rows: seq<Row>, fts: seq<FtsRow>)
    ensures Without(rows, {}) == rows && FtsWithout(fts, {}) == fts
    decreases |rows| + |fts|
  {
    if rows != [] {
      WithoutNone(rows[..|rows| - 1], fts);
    }
    if fts != [] {
      WithoutNone(rows, fts[..|fts| - 1]);
    }
  }

  lemma NothingMissing(t: Tables, active: set<string>)
    requires Missing(t, active) == {}
    ensures MarkMissing(t, active) == t
  {
    WithoutNone(t.chunks, t.fts);
    var e := MarkMissing(t, active);
    assert e.documents == t.documents;
    assert PathsOf(t.documents, {}) == {};
    assert Rowids(t.chunks, {}) == {};
  }
}
