/** What the store's transactions show to readers, and that they keep the tables in agreement. */
module Transactions {
  import opened Text
  import opened VectorMath
  import opened DocStore
  import opened TableAgreement

  // ── what a transaction shows and keeps ─────────────────────────

  /** What readers see of a document: its record and its chunks, unless it is absent or deleted. */
  function Shown(t: Tables, id: DocId): Option<(Document, seq<Chunk>)> {
    if id in t.documents && t.documents[id].status == Active
    then Some((t.documents[id], ChunksOf(t.chunks, id))) else None
  }

  lemma {:induction false} ChunksOfWithout(rows: seq<Row>, ids: set<DocId>, id: DocId)
    ensures ChunksOf(Without(rows, ids), id) == if id in ids then [] else ChunksOf(rows, id)
  {
    if rows != [] {
      var front, last, w := rows[..|rows| - 1], rows[|rows| - 1], Without(rows, ids);
      ChunksOfWithout(front, ids, id);
      if last.chunk.docId in ids {
        assert w == Without(front, ids);
      } else {
        assert w[..|w| - 1] == Without(front, ids);
      }
    }
  }

  lemma ExtendedFront(t: Tables, e: Tables, chunks: seq<Chunk>)
    requires Extended(t, e, chunks) && chunks != []
    ensures var front, n := chunks[..|chunks| - 1], |e.chunks| - 1;
            && e.chunks != [] && Extended(t, e.(chunks := e.chunks[..n]), front)
            && e.chunks[n].chunk == chunks[|chunks| - 1]
  {
    var shorter := e.(chunks := e.chunks[..|e.chunks| - 1]);
    assert shorter.chunks[..|t.chunks|] == e.chunks[..|t.chunks|];
  }

  lemma ExtendedNone(t: Tables, e: Tables)
    requires Extended(t, e, [])
    ensures e.chunks == t.chunks
  {
    assert e.chunks == e.chunks[..|t.chunks|];
  }

  lemma ChunksOfSnoc(rows: seq<Row>, id: DocId)
    requires rows != []
    ensures var last := rows[|rows| - 1];
            ChunksOf(rows, id) == ChunksOf(rows[..|rows| - 1], id) + if last.chunk.docId == id then [last.chunk] else []
  {
  }

  lemma {:induction false} ChunksOfExtended(t: Tables, e: Tables, chunks: seq<Chunk>, doc: DocId, id: DocId)
    requires Extended(t, e, chunks) && forall i :: 0 <= i < |chunks| ==> chunks[i].docId == doc
    decreases |chunks|
    ensures ChunksOf(e.chunks, id) == ChunksOf(t.chunks, id) + if id == doc then chunks else []
  {
    hide Extended, ChunksOf;
    if chunks == [] {
      ExtendedNone(t, e);
    } else {
      var front, last := chunks[..|chunks| - 1], chunks[|chunks| - 1];
      ExtendedFront(t, e, chunks);
      ChunksOfExtended(t, e.(chunks := e.chunks[..|e.chunks| - 1]), front, doc, id);
      ChunksOfSnoc(e.chunks, id);
      Associative(ChunksOf(t.chunks, id), front, [last]);
      assert chunks == front + [last];
    }
  }

  lemma StoredBelongs(doc: Document, chunks: seq<Chunk>, embeddings: Option<seq<Vec>>)
    requires Belongs(doc, chunks) && (embeddings.Some? ==> |embeddings.value| == |chunks|)
    ensures Belongs(doc, ToStore(chunks, embeddings))
  {
    var s := ToStore(chunks, embeddings);
    assert forall i :: 0 <= i < |s| ==> s[i].id == chunks[i].id && s[i].docId == chunks[i].docId && s[i].path == chunks[i].path;
  }

  lemma ReplaceExtends(cfg: Config, t: Tables, doc: Document, chunks: seq<Chunk>, embeddings: Option<seq<Vec>>)
    requires Agree(cfg, t) && Belongs(doc, chunks) && EmbeddingsOk(cfg, chunks, embeddings)
    ensures var r := Replace(cfg, t, doc, chunks, embeddings);
            r.Some? && Agree(cfg, r.value) && Extended(Cleared(t, doc), r.value, ToStore(chunks, embeddings))
  {
    assert !PathTaken(t, doc);
    ClearedAgrees(cfg, t, doc);
    WithoutRows(t.chunks, {doc.docId});
    StoredBelongs(doc, chunks, embeddings);
    InsertAllAgrees(cfg, Cleared(t, doc), doc, ToStore(chunks, embeddings));
  }

  lemma ExtendedShows(t: Tables, doc: Document, e: Tables, stored: seq<Chunk>, id: DocId)
    requires Extended(Cleared(t, doc), e, stored) && doc.status == Active
    requires forall i :: 0 <= i < |stored| ==> stored[i].docId == doc.docId
    ensures Shown(e, id) == if id == doc.docId then Some((doc, stored)) else Shown(t, id)
  {
    hide Without, FtsWithout, ChunksOf, Rowids;
    ChunksOfExtended(Cleared(t, doc), e, stored, doc.docId, id);
    ChunksOfWithout(t.chunks, {doc.docId}, id);
    assert [] + stored == stored && ChunksOf(t.chunks, id) + [] == ChunksOf(t.chunks, id);
  }

  /**
   Replacing the chunks of one document: it is refused exactly when an embedding is missing or has
   the wrong dimension; otherwise the tables still agree, readers see the new record with exactly
   the new chunks in order, and every other document as before.
   */
  lemma ReplaceKeeps(cfg: Config, t: Tables, doc: Document, chunks: seq<Chunk>, embeddings: Option<seq<Vec>>, id: DocId)
    requires Agree(cfg, t) && Belongs(doc, chunks)
    ensures var r := Replace(cfg, t, doc, chunks, embeddings);
            && (r.Some? <==> EmbeddingsOk(cfg, chunks, embeddings))
            && (r.Some? ==>
                  && Agree(cfg, r.value)
                  && Shown(r.value, id) == if id == doc.docId then Some((doc, ToStore(chunks, embeddings))) else Shown(t, id))
  {
    if EmbeddingsOk(cfg, chunks, embeddings) {
      ReplaceExtends(cfg, t, doc, chunks, embeddings);
      hide Agree, Extended, InsertAll, Cleared;
      ExtendedShows(t, doc, Replace(cfg, t, doc, chunks, embeddings).value, ToStore(chunks, embeddings), id);
    }
  }

  /** The embeddings a replacement refuses: too many or too few, of the wrong dimension, or none for a ready chunk. */
  lemma EmbeddingsOkIff(cfg: Config, chunks: seq<Chunk>, embeddings: Option<seq<Vec>>)
    ensures EmbeddingsOk(cfg, chunks, embeddings) <==>
      match embeddings
      case Some(vs) => |vs| == |chunks| && forall i :: 0 <= i < |vs| ==> |vs[i]| == cfg.dim
      case None => forall i :: 0 <= i < |chunks| ==>
        if chunks[i].embedding.Some? then |chunks[i].embedding.value| == cfg.dim else !chunks[i].ready
  {
    if embeddings.Some? && |embeddings.value| == |chunks| {
      assert forall i :: 0 <= i < |chunks| ==> Resolved(chunks, embeddings, i) == Some(embeddings.value[i]);
    }
  }

  /** After a replacement readers see chunk i with the i-th embedding given, or its own if none were given. */
  lemma ReplaceShows(cfg: Config, t: Tables, doc: Document, chunks: seq<Chunk>, embeddings: Option<seq<Vec>>)
    requires Agree(cfg, t) && Belongs(doc, chunks) && Replace(cfg, t, doc, chunks, embeddings).Some?
    ensures var s := Shown(Replace(cfg, t, doc, chunks, embeddings).value, doc.docId);
            && s.Some? && s.value.0 == doc && |s.value.1| == |chunks|
            && (embeddings.Some? ==> |embeddings.value| == |chunks|)
            && forall i :: 0 <= i < |chunks| ==>
                 s.value.1[i] == chunks[i].(embedding := if embeddings.Some? then Some(embeddings.value[i]) else chunks[i].embedding)
  {
    ReplaceKeeps(cfg, t, doc, chunks, embeddings, doc.docId);
    hide Agree, Replace, Shown;
  }

  lemma MarkMissingAgrees(cfg: Config, t: Tables, active: set<string>)
    requires Agree(cfg, t)
    ensures Agree(cfg, MarkMissing(t, active))
  {
    var gone, e := Missing(t, active), MarkMissing(t, active);
    RemovedAgrees(cfg, t, e.documents, gone, PathsOf(t.documents, gone));
  }

  /** Marking keeps the tables in step and hides exactly the documents whose files are gone. */
  lemma MarkMissingKeeps(cfg: Config, t: Tables, active: set<string>, id: DocId)
    requires Agree(cfg, t)
    ensures var e := MarkMissing(t, active);
            && Agree(cfg, e)
            && Shown(e, id) == if id.path in active then Shown(t, id) else None
  {
    MarkMissingAgrees(cfg, t, active);
    ChunksOfWithout(t.chunks, Missing(t, active), id);
  }

  /** Every stored chunk is ready and has an embedding of the configured dimension. */
  ghost predicate AllReady(cfg: Config, t: Tables) {
    forall i :: 0 <= i < |t.chunks| ==> ReadyIn(cfg, t.chunks[i].chunk)
  }

  predicate ReadyIn(cfg: Config, c: Chunk) {
    c.ready && c.embedding.Some? && |c.embedding.value| == cfg.dim
  }

  lemma {:induction false} InsertAllReady(cfg: Config, t: Tables, chunks: seq<Chunk>)
    requires AllReady(cfg, t) && InsertAll(cfg, t, chunks).Some?
    requires forall i :: 0 <= i < |chunks| ==> ReadyIn(cfg, chunks[i])
    ensures AllReady(cfg, InsertAll(cfg, t, chunks).value)
  {
    if chunks != [] {
      InsertAllReady(cfg, t, chunks[..|chunks| - 1]);
    }
  }

  /** Replacing by ready chunks and marking documents deleted keep every chunk ready. */
  lemma ReadyKept(cfg: Config, t: Tables, doc: Document, chunks: seq<Chunk>, embeddings: Option<seq<Vec>>, active: set<string>)
    requires AllReady(cfg, t) && forall i :: 0 <= i < |chunks| ==> chunks[i].ready
    ensures var r := Replace(cfg, t, doc, chunks, embeddings); r.Some? ==> AllReady(cfg, r.value)
    ensures AllReady(cfg, MarkMissing(t, active))
  {
    WithoutRows(t.chunks, {doc.docId});
    WithoutRows(t.chunks, Missing(t, active));
    if Replace(cfg, t, doc, chunks, embeddings).Some? {
      InsertAllReady(cfg, Cleared(t, doc), ToStore(chunks, embeddings));
    }
  }
}
