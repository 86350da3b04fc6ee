/**
 The incremental index run of doc_rag/indexer.py over the tables of DocStore: unchanged documents
 are skipped by content hash, changed ones are re-chunked, re-embedded and replaced.

 The loader's result, the chunker and the embedding service are inputs: `answers[i]` is what the
 service gives for document i (None when it raises), and may be of the wrong size.
 */
module Indexer {
  import opened Text
  import opened VectorMath
  import opened DocStore
  import opened TableAgreement
  import opened Transactions

  datatype Loaded = Loaded(path: string, title: string, content: string)
  datatype Draft = Draft(heading: string, content: string)

  /** How titles and chunks follow from a file's path and content. */
  datatype Pipeline = Pipeline(title: (string, string) -> string, chunk: Loaded -> seq<Draft>)

  datatype Options = Options(rebuild: bool, dryRun: bool)
  datatype Summary = Summary(scanned: nat, indexed: nat, skipped: nat, deleted: nat, failed: nat, chunksCreated: nat,
                             embeddingFailed: nat)
  datatype Status = PartialFailed | Succeeded

  // ── hashing ────────────────────────────────────────────────────

  const BOM := '\U{FEFF}'

  function StripBom(s: string): string {
    if s != "" && s[0] == BOM then StripBom(s[1..]) else s
  }

  /** Carriage returns, alone or before a newline, become newlines. */
  function UnixNewlines(s: string): string {
    if s == "" then ""
    else if s[0] != '\r' then [s[0]] + UnixNewlines(s[1..])
    else "\n" + UnixNewlines(if |s| > 1 && s[1] == '\n' then s[2..] else s[1..])
  }

  /** What the hash sees of a text. */
  function Normal(s: string): string {
    UnixNewlines(StripBom(s))
  }

  function HashText(s: string): Hash {
    Sha256(Normal(s))
  }

  /** Each line end, of either kind, becomes one newline, and text without one stays. */
  lemma {:induction false} LineEnds(a: string, end: string, b: string)
    requires '\r' !in a && (end == "\r\n" || end == "\n" || (end == "\r" && (b == "" || b[0] != '\n')))
    ensures UnixNewlines(a + end + b) == a + "\n" + UnixNewlines(b)
  {
    var all := a + end + b;
    if a == "" {
      assert all[|end|..] == b;
    } else {
      assert all[1..] == a[1..] + end + b;
      LineEnds(a[1..], end, b);
    }
  }

  /** A class of contents that the hash tells apart. */
  ghost predicate Telling(ok: string -> bool) {
    forall a: string, b: string :: ok(a) && ok(b) && Normal(a) == Normal(b) ==> a == b
  }

  /** Text that is its own normal form: no leading byte-order mark and no carriage return. */
  predicate Plain(s: string) {
    (s == "" || s[0] != BOM) && '\r' !in s
  }

  lemma {:induction false} PlainNewlines(s: string)
    requires '\r' !in s
    ensures UnixNewlines(s) == s
  {
    if s != "" {
      PlainNewlines(s[1..]);
    }
  }

  /** Plain texts are told apart. */
  lemma PlainTelling()
    ensures Telling(Plain)
  {
    forall s | Plain(s) ensures Normal(s) == s {
      PlainNewlines(s);
    }
  }

  // ── records ────────────────────────────────────────────────────

  function Record(doc: Loaded): Document {
    Document(DocId(doc.path), doc.path, doc.title, HashText(doc.content), Active)
  }

  /** The chunk records of a document, marked ready; the index is the place in the list. */
  function ReadyChunks(p: Pipeline, doc: Loaded): seq<Chunk> {
    var drafts := p.chunk(doc);
    seq(|drafts|, i requires 0 <= i < |drafts| => ReadyChunk(doc, i, drafts[i]))
  }

  function ReadyChunk(doc: Loaded, i: nat, draft: Draft): Chunk {
    Chunk(ChunkId(doc.path, draft.heading, i, HashText(draft.content)), DocId(doc.path), doc.path, doc.title,
          draft.heading, i, draft.content, HashText(doc.content), None, true)
  }

  lemma ReadyChunksBelong(p: Pipeline, doc: Loaded)
    ensures Belongs(Record(doc), ReadyChunks(p, doc))
  {
  }

  // ── one document ───────────────────────────────────────────────

  predicate Unchanged(t: Tables, doc: Loaded) {
    var id := DocId(doc.path);
    id in t.documents && t.documents[id].status == Active && t.documents[id].hash == HashText(doc.content)
  }

  predicate Skips(t: Tables, doc: Loaded, o: Options) {
    Unchanged(t, doc) && !o.rebuild
  }

  /** The store refuses the embeddings that came back. */
  predicate Refused(cfg: Config, p: Pipeline, doc: Loaded, answer: Option<seq<Vec>>) {
    answer.Some? && !EmbeddingsOk(cfg, ReadyChunks(p, doc), answer)
  }

  function IndexOne(cfg: Config, p: Pipeline, t: Tables, doc: Loaded, o: Options, answer: Option<seq<Vec>>): Tables {
    if Skips(t, doc, o) || answer.None? || o.dryRun then t
    else
      var r := Replace(cfg, t, Record(doc), ReadyChunks(p, doc), answer);
      if r.Some? then r.value else t
  }

  function Failed(s: Summary): Summary {
    s.(failed := s.failed + 1, embeddingFailed := s.embeddingFailed + 1)
  }

  /** The counters after one document; a refused write counts as indexed and as failed. */
  function CountOne(cfg: Config, p: Pipeline, t: Tables, s: Summary, doc: Loaded, o: Options, answer: Option<seq<Vec>>): Summary {
    if Skips(t, doc, o) then s.(skipped := s.skipped + 1)
    else if answer.None? then Failed(s)
    else
      var counted := s.(indexed := s.indexed + 1, chunksCreated := s.chunksCreated + |p.chunk(doc)|);
      if !o.dryRun && Replace(cfg, t, Record(doc), ReadyChunks(p, doc), answer).None?
      then Failed(counted) else counted
  }

  function IndexAll(cfg: Config, p: Pipeline, t: Tables, docs: seq<Loaded>, o: Options, answers: seq<Option<seq<Vec>>>): Tables
    requires |answers| == |docs|
  {
    if docs == [] then t
    else
      var n := |docs| - 1;
      IndexOne(cfg, p, IndexAll(cfg, p, t, docs[..n], o, answers[..n]), docs[n], o, answers[n])
  }

  function CountAll(cfg: Config, p: Pipeline, t: Tables, s: Summary, docs: seq<Loaded>, o: Options,
                    answers: seq<Option<seq<Vec>>>): Summary
    requires |answers| == |docs|
  {
    if docs == [] then s
    else
      var n := |docs| - 1;
      CountOne(cfg, p, IndexAll(cfg, p, t, docs[..n], o, answers[..n]),
               CountAll(cfg, p, t, s, docs[..n], o, answers[..n]), docs[n], o, answers[n])
  }

  function Paths(docs: seq<Loaded>): set<string> {
    set i | 0 <= i < |docs| :: docs[i].path
  }

  function Marked(t: Tables, docs: seq<Loaded>, o: Options): Tables {
    if o.dryRun then t else MarkMissing(t, Paths(docs))
  }

  function RunTables(cfg: Config, p: Pipeline, t: Tables, docs: seq<Loaded>, o: Options, answers: seq<Option<seq<Vec>>>): Tables
    requires |answers| == |docs|
  {
    IndexAll(cfg, p, Marked(t, docs, o), docs, o, answers)
  }

  function StartSummary(t: Tables, docs: seq<Loaded>, errors: nat, o: Options): Summary {
    Summary(|docs| + errors, 0, 0, if o.dryRun then 0 else |Missing(t, Paths(docs))|, errors, 0, 0)
  }

  lemma AllStep(cfg: Config, p: Pipeline, t: Tables, s: Summary, docs: seq<Loaded>, o: Options,
                answers: seq<Option<seq<Vec>>>, n: nat)
    requires |answers| == |docs| && n < |docs|
    ensures var e := IndexAll(cfg, p, t, docs[..n], o, answers[..n]);
            && IndexAll(cfg, p, t, docs[..n + 1], o, answers[..n + 1]) == IndexOne(cfg, p, e, docs[n], o, answers[n])
            && CountAll(cfg, p, t, s, docs[..n + 1], o, answers[..n + 1])
               == CountOne(cfg, p, e, CountAll(cfg, p, t, s, docs[..n], o, answers[..n]), docs[n], o, answers[n])
  {
    hide IndexOne, CountOne;
    assert docs[..n + 1][..n] == docs[..n] && answers[..n + 1][..n] == answers[..n];
  }

  lemma RunBegins(cfg: Config, p: Pipeline, t: Tables, docs: seq<Loaded>, errors: nat, o: Options, answers: seq<Option<seq<Vec>>>)
    requires |answers| == |docs|
    ensures Marked(t, docs, o) == if o.dryRun then t else MarkMissing(t, Paths(docs))
    ensures StartSummary(t, docs, errors, o)
         == Summary(|docs| + errors, 0, 0, if o.dryRun then 0 else |Missing(t, Paths(docs))|, errors, 0, 0)
    ensures RunTables(cfg, p, t, docs, o, answers) == IndexAll(cfg, p, Marked(t, docs, o), docs, o, answers)
  {
    hide IndexAll, MarkMissing, Missing, Paths;
  }

  lemma NothingIndexed(cfg: Config, p: Pipeline, t: Tables, s: Summary, docs: seq<Loaded>, o: Options,
                       answers: seq<Option<seq<Vec>>>)
    requires |answers| == |docs|
    ensures IndexAll(cfg, p, t, docs[..0], o, answers[..0]) == t
    ensures CountAll(cfg, p, t, s, docs[..0], o, answers[..0]) == s
    ensures docs[..|docs|] == docs && answers[..|docs|] == answers
  {
  }

  // ── the code ───────────────────────────────────────────────────

  class DocRagIndexer {
    const p: Pipeline
    const store: DocRagStore
    var summary: Summary

    constructor (p: Pipeline, store: DocRagStore)
      ensures this.p == p && this.store == store
    {
      this.p, this.store, summary := p, store, Summary(0, 0, 0, 0, 0, 0, 0);
    }

    method IndexDocument(doc: Loaded, o: Options, answer: Option<seq<Vec>>)
      modifies this, store
      ensures store.State() == IndexOne(store.cfg, p, old(store.State()), doc, o, answer)
      ensures summary == CountOne(store.cfg, p, old(store.State()), old(summary), doc, o, answer)
    {
      var id := DocId(doc.path);
      if id in store.documents && store.documents[id].status == Active
         && store.documents[id].hash == HashText(doc.content) && !o.rebuild {
        summary := summary.(skipped := summary.skipped + 1);
        return;
      }
      if answer.None? {
        summary := Failed(summary);
        return;
      }
      var ready := ReadyChunks(p, doc);
      summary := summary.(indexed := summary.indexed + 1, chunksCreated := summary.chunksCreated + |ready|);
      if !o.dryRun {
        var ok := store.ReplaceDocumentChunks(Record(doc), ready, answer);
        if !ok {
          summary := Failed(summary);
        }
      }
    }

    method Run(docs: seq<Loaded>, errors: nat, o: Options, answers: seq<Option<seq<Vec>>>) returns (status: Status)
      requires |answers| == |docs|
      modifies this, store
      ensures store.State() == RunTables(store.cfg, p, old(store.State()), docs, o, answers)
      ensures summary == CountAll(store.cfg, p, Marked(old(store.State()), docs, o),
                                  StartSummary(old(store.State()), docs, errors, o), docs, o, answers)
      ensures status.Succeeded? <==> summary.failed == 0
    {
      summary := Summary(|docs| + errors, 0, 0, 0, errors, 0, 0);
      hide *;
      RunBegins(store.cfg, p, store.State(), docs, errors, o, answers);
      if !o.dryRun {
        var n := store.MarkMissingDocumentsDeleted(Paths(docs));
        summary := summary.(deleted := n);
      }
      ghost var t, s := store.State(), summary;
      NothingIndexed(store.cfg, p, t, s, docs, o, answers);
      for i := 0 to |docs|
        invariant store.State() == IndexAll(store.cfg, p, t, docs[..i], o, answers[..i])
        invariant summary == CountAll(store.cfg, p, t, s, docs[..i], o, answers[..i])
      {
        AllStep(store.cfg, p, t, s, docs, o, answers, i);
        IndexDocument(docs[i], o, answers[i]);
      }
      status := if summary.failed > 0 then PartialFailed else Succeeded;
    }
  }

  // ── what readers see after a run ───────────────────────────────

  function Bare(c: Chunk): Chunk {
    c.(embedding := None)
  }

  function BareAll(chunks: seq<Chunk>): seq<Chunk> {
    seq(|chunks|, i requires 0 <= i < |chunks| => Bare(chunks[i]))
  }

  /** A document and its chunks apart from their embeddings. */
  datatype View = View(record: Document, chunks: seq<Chunk>)

  function Seen(t: Tables, id: DocId): Option<View> {
    var s := Shown(t, id);
    if s.None? then None
    else Some(View(s.value.0, BareAll(s.value.1)))
  }

  /** What indexing the file from nothing shows. */
  function Fresh(p: Pipeline, doc: Loaded): View {
    View(Record(doc), ReadyChunks(p, doc))
  }

  /** A file as the loader gives it: the title follows from path and content. */
  function FileOf(p: Pipeline, path: string, content: string): Loaded {
    Loaded(path, p.title(path, content), content)
  }

  /** The view is what indexing some version of the file, with a content of the class, shows. */
  ghost predicate Version(p: Pipeline, ok: string -> bool, path: string, v: View) {
    exists c :: ok(c) && v == Fresh(p, FileOf(p, path, c))
  }

  /** Every active document shows some version of its file. */
  ghost predicate Faithful(p: Pipeline, ok: string -> bool, t: Tables) {
    forall id :: Seen(t, id).Some? ==> Version(p, ok, id.path, Seen(t, id).value)
  }

  ghost predicate LoadedOk(p: Pipeline, ok: string -> bool, doc: Loaded) {
    ok(doc.content) && doc == FileOf(p, doc.path, doc.content)
  }

  lemma BareStored(p: Pipeline, doc: Loaded, answer: Option<seq<Vec>>)
    requires answer.Some? ==> |answer.value| == |ReadyChunks(p, doc)|
    ensures BareAll(ToStore(ReadyChunks(p, doc), answer)) == ReadyChunks(p, doc)
  {
  }

  /** Indexing did not go through: the service raised or the store refused. */
  predicate Fails(cfg: Config, p: Pipeline, doc: Loaded, answer: Option<seq<Vec>>) {
    answer.None? || Refused(cfg, p, doc, answer)
  }

  /** The document is indexed anew. */
  predicate Indexes(cfg: Config, p: Pipeline, t: Tables, doc: Loaded, o: Options, answer: Option<seq<Vec>>) {
    !o.dryRun && !Skips(t, doc, o) && !Fails(cfg, p, doc, answer)
  }

  lemma SeenReplaced(p: Pipeline, t: Tables, e: Tables, doc: Loaded, answer: Option<seq<Vec>>, id: DocId)
    requires answer.Some? && |answer.value| == |ReadyChunks(p, doc)|
    requires Shown(e, id) == if id == DocId(doc.path) then Some((Record(doc), ToStore(ReadyChunks(p, doc), answer)))
                             else Shown(t, id)
    ensures Seen(e, id) == if id == DocId(doc.path) then Some(Fresh(p, doc)) else Seen(t, id)
  {
    BareStored(p, doc, answer);
  }

  /**
   One document: if it is indexed anew it is shown as indexed from nothing, and every other document
   as before; otherwise nothing changes.
   */
  lemma IndexOneShows(cfg: Config, p: Pipeline, t: Tables, doc: Loaded, o: Options, answer: Option<seq<Vec>>, id: DocId)
    requires Agree(cfg, t)
    ensures var e := IndexOne(cfg, p, t, doc, o, answer);
            && Agree(cfg, e)
            && (!Indexes(cfg, p, t, doc, o, answer) ==> e == t)
            && Seen(e, id) == if id == DocId(doc.path) && Indexes(cfg, p, t, doc, o, answer) then Some(Fresh(p, doc))
                              else Seen(t, id)
  {
    if !Skips(t, doc, o) && answer.Some? && !o.dryRun {
      hide Agree, Fresh, Seen, Shown, Replace;
      ReadyChunksBelong(p, doc);
      ReplaceKeeps(cfg, t, Record(doc), ReadyChunks(p, doc), answer, id);
      if EmbeddingsOk(cfg, ReadyChunks(p, doc), answer) {
        SeenReplaced(p, t, Replace(cfg, t, Record(doc), ReadyChunks(p, doc), answer).value, doc, answer, id);
      }
    }
  }

  /**
   What indexing a document anew stores, field by field: the record of the file, and for each draft in
   order a chunk with its text, the document's data and the embedding answered for it.
   */
  lemma IndexedChunks(cfg: Config, p: Pipeline, t: Tables, doc: Loaded, o: Options, answer: Option<seq<Vec>>)
    requires Agree(cfg, t) && Indexes(cfg, p, t, doc, o, answer)
    ensures var s, drafts := Shown(IndexOne(cfg, p, t, doc, o, answer), DocId(doc.path)), p.chunk(doc);
            && s.Some? && s.value.0 == Document(DocId(doc.path), doc.path, doc.title, Sha256(Normal(doc.content)), Active)
            && |s.value.1| == |drafts| == |answer.value|
            && forall i :: 0 <= i < |drafts| ==>
                 var c := s.value.1[i];
                 && c.heading == drafts[i].heading && c.content == drafts[i].content && c.index == i
                 && c.id == ChunkId(doc.path, drafts[i].heading, i, Sha256(Normal(drafts[i].content)))
                 && c.docId == DocId(doc.path) && c.path == doc.path && c.title == doc.title
                 && c.docHash == Sha256(Normal(doc.content)) && c.embedding == Some(answer.value[i]) && c.ready
  {
    hide Agree, Replace, Shown, Belongs, EmbeddingsOk, Normal, Skips;
    var chunks := ReadyChunks(p, doc);
    ReadyChunksBelong(p, doc);
    ReplaceKeeps(cfg, t, Record(doc), chunks, answer, DocId(doc.path));
    ReplaceShows(cfg, t, Record(doc), chunks, answer);
  }

  lemma IndexOneFaithful(cfg: Config, p: Pipeline, ok: string -> bool, t: Tables, doc: Loaded, o: Options,
                         answer: Option<seq<Vec>>)
    requires Agree(cfg, t) && Faithful(p, ok, t) && LoadedOk(p, ok, doc)
    ensures Faithful(p, ok, IndexOne(cfg, p, t, doc, o, answer))
  {
    var e := IndexOne(cfg, p, t, doc, o, answer);
    hide Agree, IndexOne, Seen, Fresh, Indexes;
    forall id | Seen(e, id).Some? ensures Version(p, ok, id.path, Seen(e, id).value) {
      IndexOneShows(cfg, p, t, doc, o, answer, id);
    }
  }

  ghost predicate DistinctPaths(docs: seq<Loaded>) {
    forall i, j :: 0 <= i < j < |docs| ==> docs[i].path != docs[j].path
  }

  /** The document has been skipped or indexed: its attempt, if any, did not fail. */
  predicate Succeeds(cfg: Config, p: Pipeline, t: Tables, doc: Loaded, o: Options, answer: Option<seq<Vec>>) {
    Skips(t, doc, o) || !Fails(cfg, p, doc, answer)
  }

  ghost predicate RunOk(docs: seq<Loaded>, o: Options, answers: seq<Option<seq<Vec>>>) {
    |answers| == |docs| && DistinctPaths(docs) && !o.dryRun
  }

  ghost predicate AllLoadedOk(p: Pipeline, ok: string -> bool, docs: seq<Loaded>) {
    forall i :: 0 <= i < |docs| ==> LoadedOk(p, ok, docs[i])
  }

  /** The place of a path among the loaded files, or their number. */
  function PlaceOf(docs: seq<Loaded>, path: string): (n: nat)
    ensures n <= |docs| && (n < |docs| ==> docs[n].path == path)
    ensures n == |docs| ==> path !in Paths(docs)
  {
    if docs == [] then 0
    else if docs[0].path == path then 0
    else
      var n := PlaceOf(docs[1..], path);
      assert forall i :: 1 <= i < |docs| ==> docs[i] == docs[1..][i - 1];
      assert forall i :: 1 <= i < |docs| ==> docs[i].path in Paths(docs[1..]);
      n + 1
  }

  /** One more document, when those before it left what is seen of it as it was. */
  lemma IndexNextShows(cfg: Config, p: Pipeline, t: Tables, e: Tables, docs: seq<Loaded>, o: Options,
                       answers: seq<Option<seq<Vec>>>, m: nat, id: DocId)
    requires Agree(cfg, e) && RunOk(docs, o, answers) && m < |docs|
    requires Seen(e, DocId(docs[m].path)) == Seen(t, DocId(docs[m].path))
    ensures var f, i := IndexOne(cfg, p, e, docs[m], o, answers[m]), PlaceOf(docs, id.path);
            && Agree(cfg, f) && PlaceOf(docs, docs[m].path) == m
            && Seen(f, id) == if i == m && Indexes(cfg, p, t, docs[m], o, answers[m]) then Some(Fresh(p, docs[m])) else Seen(e, id)
  {
    PlaceIs(docs, m);
    SkipsBySeen(t, e, docs[m], o);
    hide Agree, Fresh, IndexOne, Fails, Skips, Seen, PlaceOf;
    IndexOneShows(cfg, p, e, docs[m], o, answers[m], id);
    if PlaceOf(docs, id.path) == m {
      assert id == DocId(docs[m].path);
    }
  }

  lemma PlaceIs(docs: seq<Loaded>, m: nat)
    requires DistinctPaths(docs) && m < |docs|
    ensures PlaceOf(docs, docs[m].path) == m
  {
  }

  lemma {:induction false} IndexAllShows(cfg: Config, p: Pipeline, t: Tables, docs: seq<Loaded>, o: Options,
                                         answers: seq<Option<seq<Vec>>>, n: nat, id: DocId)
    requires Agree(cfg, t) && RunOk(docs, o, answers) && n <= |docs|
    ensures var e, i := IndexAll(cfg, p, t, docs[..n], o, answers[..n]), PlaceOf(docs, id.path);
            && Agree(cfg, e)
            && Seen(e, id) == if i < n && Indexes(cfg, p, t, docs[i], o, answers[i]) then Some(Fresh(p, docs[i])) else Seen(t, id)
  {
    if n > 0 {
      var m := n - 1;
      AllStep(cfg, p, t, Summary(0, 0, 0, 0, 0, 0, 0), docs, o, answers, m);
      PlaceIs(docs, m);
      hide Agree, Fresh, IndexAll, IndexOne, Indexes, Seen, CountAll, CountOne, DistinctPaths, PlaceOf;
      IndexAllShows(cfg, p, t, docs, o, answers, m, id);
      IndexAllShows(cfg, p, t, docs, o, answers, m, DocId(docs[m].path));
      var e := IndexAll(cfg, p, t, docs[..m], o, answers[..m]);
      IndexNextShows(cfg, p, t, e, docs, o, answers, m, id);
    }
  }

  /** Skipping depends only on what is seen of the document. */
  lemma SkipsBySeen(t: Tables, e: Tables, doc: Loaded, o: Options)
    requires Seen(t, DocId(doc.path)) == Seen(e, DocId(doc.path))
    ensures Skips(t, doc, o) == Skips(e, doc, o)
  {
  }

  lemma {:induction false} IndexAllFaithful(cfg: Config, p: Pipeline, ok: string -> bool, t: Tables, docs: seq<Loaded>,
                                            o: Options, answers: seq<Option<seq<Vec>>>)
    requires |answers| == |docs| && Agree(cfg, t) && Faithful(p, ok, t) && AllLoadedOk(p, ok, docs)
    ensures var e := IndexAll(cfg, p, t, docs, o, answers); Agree(cfg, e) && Faithful(p, ok, e)
  {
    if docs != [] {
      var n := |docs| - 1;
      assert AllLoadedOk(p, ok, docs[..n]) && LoadedOk(p, ok, docs[n]);
      hide Agree, Faithful, LoadedOk, IndexOne, Seen;
      IndexAllFaithful(cfg, p, ok, t, docs[..n], o, answers[..n]);
      var e := IndexAll(cfg, p, t, docs[..n], o, answers[..n]);
      IndexOneShows(cfg, p, e, docs[n], o, answers[n], DocId(""));
      IndexOneFaithful(cfg, p, ok, e, docs[n], o, answers[n]);
    }
  }

  // ── whole runs ─────────────────────────────────────────────────

  lemma MarkedShows(cfg: Config, t: Tables, docs: seq<Loaded>, o: Options, id: DocId)
    requires Agree(cfg, t)
    ensures var e := Marked(t, docs, o);
            && Agree(cfg, e)
            && Seen(e, id) == if o.dryRun || id.path in Paths(docs) then Seen(t, id) else None
  {
    MarkMissingKeeps(cfg, t, Paths(docs), id);
  }

  /**
   A run shows, for every path: nothing if no such file was loaded; what indexing the file from
   nothing shows if it was indexed anew; and otherwise, when it was skipped or failed, what was shown before.
   */
  lemma RunShows(cfg: Config, p: Pipeline, t: Tables, docs: seq<Loaded>, o: Options, answers: seq<Option<seq<Vec>>>, id: DocId)
    requires Agree(cfg, t) && RunOk(docs, o, answers)
    ensures var e, i := RunTables(cfg, p, t, docs, o, answers), PlaceOf(docs, id.path);
            && Agree(cfg, e)
            && Seen(e, id) == if i == |docs| then None
                              else if Indexes(cfg, p, t, docs[i], o, answers[i]) then Some(Fresh(p, docs[i]))
                              else Seen(t, id)
  {
    hide Agree, Fresh, IndexAll, Fails, Marked, Seen, Skips;
    var m, i := Marked(t, docs, o), PlaceOf(docs, id.path);
    MarkedShows(cfg, t, docs, o, id);
    IndexAllShows(cfg, p, m, docs, o, answers, |docs|, id);
    assert docs[..|docs|] == docs && answers[..|docs|] == answers;
    if i < |docs| {
      assert docs[i].path in Paths(docs);
      SkipsBySeen(t, m, docs[i], o);
    }
  }

  lemma RunFaithful(cfg: Config, p: Pipeline, ok: string -> bool, t: Tables, docs: seq<Loaded>, o: Options,
                    answers: seq<Option<seq<Vec>>>)
    requires |answers| == |docs| && Agree(cfg, t) && Faithful(p, ok, t) && AllLoadedOk(p, ok, docs)
    ensures Faithful(p, ok, RunTables(cfg, p, t, docs, o, answers))
  {
    var m := Marked(t, docs, o);
    assert Agree(cfg, m) && Faithful(p, ok, m) by {
      hide Agree, Seen, Marked, Version;
      MarkedShows(cfg, t, docs, o, DocId(""));
      forall id | Seen(m, id).Some? ensures Version(p, ok, id.path, Seen(m, id).value) {
        MarkedShows(cfg, t, docs, o, id);
      }
    }
    hide Agree, Faithful, Marked, AllLoadedOk;
    IndexAllFaithful(cfg, p, ok, m, docs, o, answers);
  }

  /** A skipped file is shown in a version with the same normal form; if the hash tells contents apart, in its own. */
  lemma SkippedShows(p: Pipeline, ok: string -> bool, t: Tables, doc: Loaded, o: Options)
    requires Faithful(p, ok, t) && LoadedOk(p, ok, doc) && Skips(t, doc, o)
    ensures exists c :: ok(c) && Normal(c) == Normal(doc.content)
                        && Seen(t, DocId(doc.path)) == Some(Fresh(p, FileOf(p, doc.path, c)))
    ensures Telling(ok) ==> Seen(t, DocId(doc.path)) == Some(Fresh(p, doc))
  {
    var id := DocId(doc.path);
    assert Seen(t, id).Some? && Seen(t, id).value.record.hash == HashText(doc.content);
    hide Seen, Skips, ReadyChunks;
    var c :| ok(c) && Seen(t, id).value == Fresh(p, FileOf(p, id.path, c));
    assert HashText(c) == HashText(doc.content);
  }

  /** The empty store a rebuild starts from. */
  const EMPTY := Tables(map[], [], [], map[])

  /**
   Incremental equals rebuild, for contents the hash tells apart: if no document's indexing fails,
   the run over any reachable store shows exactly what the same files show when indexed into an
   empty one; and in general the two differ at a file only if its indexing failed in one of them.
   */
  lemma IncrementalEqualsRebuild(cfg: Config, p: Pipeline, ok: string -> bool, t: Tables, docs: seq<Loaded>,
                                 o: Options, o': Options, answers: seq<Option<seq<Vec>>>, answers': seq<Option<seq<Vec>>>,
                                 id: DocId)
    requires Telling(ok) && Agree(cfg, t) && Faithful(p, ok, t) && AllLoadedOk(p, ok, docs)
    requires RunOk(docs, o, answers) && RunOk(docs, o', answers')
    ensures var i := PlaceOf(docs, id.path);
            (i == |docs| || (Succeeds(cfg, p, t, docs[i], o, answers[i]) && !Fails(cfg, p, docs[i], answers'[i]))) ==>
              Seen(RunTables(cfg, p, t, docs, o, answers), id) == Seen(RunTables(cfg, p, EMPTY, docs, o', answers'), id)
  {
    assert Agree(cfg, EMPTY);
    var i := PlaceOf(docs, id.path);
    if i < |docs| {
      assert LoadedOk(p, ok, docs[i]) && !Skips(EMPTY, docs[i], o');
      hide Agree, Faithful, Fresh, RunTables, Fails, LoadedOk, Skips, Telling, Seen;
      if Skips(t, docs[i], o) {
        SkippedShows(p, ok, t, docs[i], o);
      }
      RunShows(cfg, p, t, docs, o, answers, id);
      RunShows(cfg, p, EMPTY, docs, o', answers', id);
    } else {
      RunShows(cfg, p, t, docs, o, answers, id);
      RunShows(cfg, p, EMPTY, docs, o', answers', id);
    }
  }

  /**
   When a changed file goes unnoticed: after a document was indexed, a file of the same path is
   skipped, and its old version stays in view, if and only if the two contents have one normal form.
   */
  lemma ChangedFileSkippedIff(cfg: Config, p: Pipeline, t: Tables, doc: Loaded, changed: Loaded, o: Options, o': Options,
                              answer: Option<seq<Vec>>)
    requires Agree(cfg, t) && Indexes(cfg, p, t, doc, o, answer) && changed.path == doc.path && !o'.rebuild
    ensures var e := IndexOne(cfg, p, t, doc, o, answer);
            && Seen(e, DocId(doc.path)) == Some(Fresh(p, doc))
            && (Skips(e, changed, o') <==> Normal(changed.content) == Normal(doc.content))
  {
    var e, id := IndexOne(cfg, p, t, doc, o, answer), DocId(doc.path);
    IndexOneShows(cfg, p, t, doc, o, answer, id);
    hide Agree, IndexOne, Indexes, Normal, ReadyChunks;
    assert Seen(e, id).value.record == Record(doc);
  }

  /** Such a pair is a text with and without a byte-order mark, or with either kind of line end. */
  lemma NotTold(s: string)
    ensures Normal([BOM] + s) == Normal(s) && [BOM] + s != s
    ensures Normal("a\r\nb") == Normal("a\nb")
  {
    assert ([BOM] + s)[1..] == s;
    assert |[BOM] + s| > |s|;
    assert "a\r\nb"[1..] == "\r\nb" && "\r\nb"[2..] == "b" && "a\nb"[1..] == "\nb" && "\nb"[1..] == "b";
    assert UnixNewlines("\r\nb") == "\n" + UnixNewlines("b");
  }

  ghost predicate AllUnchanged(t: Tables, docs: seq<Loaded>) {
    forall i :: 0 <= i < |docs| ==> Unchanged(t, docs[i])
  }

  /** A run over files the index already has touches nothing and skips every one. */
  lemma {:induction false} UnchangedRunSkips(cfg: Config, p: Pipeline, t: Tables, s: Summary, docs: seq<Loaded>,
                                             o: Options, answers: seq<Option<seq<Vec>>>)
    requires |answers| == |docs| && AllUnchanged(t, docs) && !o.rebuild
    ensures IndexAll(cfg, p, t, docs, o, answers) == t
    ensures CountAll(cfg, p, t, s, docs, o, answers) == s.(skipped := s.skipped + |docs|)
  {
    if docs != [] {
      UnchangedRunSkips(cfg, p, t, s, docs[..|docs| - 1], o, answers[..|docs| - 1]);
      assert Unchanged(t, docs[|docs| - 1]);
    }
  }

  /**
   Running a second time on the same files, after a run in which nothing failed: every file is
   skipped, nothing is deleted or failed, and not a single table changes, rowids included.
   */
  lemma SecondRunChangesNothing(cfg: Config, p: Pipeline, t: Tables, docs: seq<Loaded>, o: Options, o': Options,
                                answers: seq<Option<seq<Vec>>>, answers': seq<Option<seq<Vec>>>)
    requires Agree(cfg, t) && RunOk(docs, o, answers) && RunOk(docs, o', answers')
    requires !o'.rebuild && forall i :: 0 <= i < |docs| ==> Succeeds(cfg, p, t, docs[i], o, answers[i])
    ensures var e := RunTables(cfg, p, t, docs, o, answers);
            && RunTables(cfg, p, e, docs, o', answers') == e
            && CountAll(cfg, p, Marked(e, docs, o'), StartSummary(e, docs, 0, o'), docs, o', answers')
               == Summary(|docs|, 0, |docs|, 0, 0, 0, 0)
  {
    var e := RunTables(cfg, p, t, docs, o, answers);
    forall i | 0 <= i < |docs| ensures Unchanged(e, docs[i]) {
      RunShows(cfg, p, t, docs, o, answers, DocId(docs[i].path));
      assert PlaceOf(docs, docs[i].path) == i;
      hide Agree, RunTables, Fails, ReadyChunks, Normal;
    }
    forall id | id in e.documents && e.documents[id].status == Active ensures e.documents[id].path in Paths(docs) {
      RunShows(cfg, p, t, docs, o, answers, id);
      assert Seen(e, id).Some?;
    }
    hide Agree, RunTables;
    assert Missing(e, Paths(docs)) == {};
    NothingMissing(e, Paths(docs));
    UnchangedRunSkips(cfg, p, e, StartSummary(e, docs, 0, o'), docs, o', answers');
  }

  // ── every reachable store ──────────────────────────────────────

  lemma {:induction false} IndexAllReady(cfg: Config, p: Pipeline, t: Tables, docs: seq<Loaded>, o: Options,
                                         answers: seq<Option<seq<Vec>>>)
    requires |answers| == |docs| && AllReady(cfg, t) && Agree(cfg, t)
    ensures var e := IndexAll(cfg, p, t, docs, o, answers); AllReady(cfg, e) && Agree(cfg, e)
  {
    if docs != [] {
      var n := |docs| - 1;
      hide Agree, AllReady, Seen;
      IndexAllReady(cfg, p, t, docs[..n], o, answers[..n]);
      var e := IndexAll(cfg, p, t, docs[..n], o, answers[..n]);
      ReadyKept(cfg, e, Record(docs[n]), ReadyChunks(p, docs[n]), answers[n], {});
      IndexOneShows(cfg, p, e, docs[n], o, answers[n], DocId(""));
    }
  }

  datatype RunInput = RunInput(docs: seq<Loaded>, options: Options, answers: seq<Option<seq<Vec>>>)

  predicate Runs(runs: seq<RunInput>) {
    forall i :: 0 <= i < |runs| ==> |runs[i].answers| == |runs[i].docs|
  }

  function AfterRuns(cfg: Config, p: Pipeline, runs: seq<RunInput>): Tables
    requires Runs(runs)
  {
    if runs == [] then EMPTY
    else
      var r := runs[|runs| - 1];
      RunTables(cfg, p, AfterRuns(cfg, p, runs[..|runs| - 1]), r.docs, r.options, r.answers)
  }

  /**
   Every store reachable by index runs, real or dry, on whatever texts and whatever failed in them:
   its four tables agree and every chunk is ready for search.
   */
  lemma {:induction false} ReachableStores(cfg: Config, p: Pipeline, runs: seq<RunInput>)
    requires Runs(runs)
    ensures var t := AfterRuns(cfg, p, runs); Agree(cfg, t) && AllReady(cfg, t)
  {
    if runs != [] {
      var r, t := runs[|runs| - 1], AfterRuns(cfg, p, runs[..|runs| - 1]);
      ReachableStores(cfg, p, runs[..|runs| - 1]);
      hide Agree, AllReady, Seen;
      MarkedShows(cfg, t, r.docs, r.options, DocId(""));
      if !r.options.dryRun {
        ReadyKept(cfg, t, Record(Loaded("", "", "")), [], None, Paths(r.docs));
      }
      IndexAllReady(cfg, p, Marked(t, r.docs, r.options), r.docs, r.options, r.answers);
    }
  }

  /** And each of its documents shows what indexing some version of its file from nothing shows. */
  lemma {:induction false} ReachableFaithful(cfg: Config, p: Pipeline, ok: string -> bool, runs: seq<RunInput>)
    requires Runs(runs) && forall i :: 0 <= i < |runs| ==> AllLoadedOk(p, ok, runs[i].docs)
    ensures Faithful(p, ok, AfterRuns(cfg, p, runs))
  {
    if runs != [] {
      var r, t := runs[|runs| - 1], AfterRuns(cfg, p, runs[..|runs| - 1]);
      ReachableFaithful(cfg, p, ok, runs[..|runs| - 1]);
      ReachableStores(cfg, p, runs[..|runs| - 1]);
      hide Agree, Faithful, AllReady, RunTables, AllLoadedOk;
      RunFaithful(cfg, p, ok, t, r.docs, r.options, r.answers);
    }
  }

  // ── counters ───────────────────────────────────────────────────

  /** How many of the documents' writes the store refused. */
  function Refusals(cfg: Config, p: Pipeline, t: Tables, docs: seq<Loaded>, o: Options, answers: seq<Option<seq<Vec>>>): nat
    requires |answers| == |docs|
  {
    if docs == [] then 0
    else
      var n := |docs| - 1;
      Refusals(cfg, p, t, docs[..n], o, answers[..n])
      + if !o.dryRun && !Skips(IndexAll(cfg, p, t, docs[..n], o, answers[..n]), docs[n], o)
           && answers[n].Some? && Replace(cfg, IndexAll(cfg, p, t, docs[..n], o, answers[..n]), Record(docs[n]),
                                          ReadyChunks(p, docs[n]), answers[n]).None?
        then 1 else 0
  }

  /**
   The counters do not add up to the files scanned when the store refuses a write: each refusal is
   counted both as indexed and as failed, and that is the only discrepancy.  Every failure past
   loading counts as one of the embedding service, refusals included.
   */
  lemma {:induction false} CountersAddUp(cfg: Config, p: Pipeline, t: Tables, s: Summary, docs: seq<Loaded>,
                                         o: Options, answers: seq<Option<seq<Vec>>>)
    requires |answers| == |docs|
    ensures var r := CountAll(cfg, p, t, s, docs, o, answers);
            && r.indexed + r.skipped + r.failed
               == s.indexed + s.skipped + s.failed + |docs| + Refusals(cfg, p, t, docs, o, answers)
            && r.failed - r.embeddingFailed == s.failed - s.embeddingFailed
  {
    if docs != [] {
      CountersAddUp(cfg, p, t, s, docs[..|docs| - 1], o, answers[..|docs| - 1]);
    }
  }

  /** How many of the files are unchanged in the store the run starts from. */
  function Skipped(t: Tables, docs: seq<Loaded>, o: Options): nat {
    if docs == [] then 0
    else Skipped(t, docs[..|docs| - 1], o) + if Skips(t, docs[|docs| - 1], o) then 1 else 0
  }

  /** How many of the others get embeddings. */
  function Embedded(t: Tables, docs: seq<Loaded>, o: Options, answers: seq<Option<seq<Vec>>>): nat
    requires |answers| == |docs|
  {
    if docs == [] then 0
    else
      var n := |docs| - 1;
      Embedded(t, docs[..n], o, answers[..n]) + if !Skips(t, docs[n], o) && answers[n].Some? then 1 else 0
  }

  /** How many chunks these have. */
  function EmbeddedChunks(p: Pipeline, t: Tables, docs: seq<Loaded>, o: Options, answers: seq<Option<seq<Vec>>>): nat
    requires |answers| == |docs|
  {
    if docs == [] then 0
    else
      var n := |docs| - 1;
      EmbeddedChunks(p, t, docs[..n], o, answers[..n])
      + if !Skips(t, docs[n], o) && answers[n].Some? then |p.chunk(docs[n])| else 0
  }

  /** How many get none, or none that the store accepts. */
  function Failures(cfg: Config, p: Pipeline, t: Tables, docs: seq<Loaded>, o: Options, answers: seq<Option<seq<Vec>>>): nat
    requires |answers| == |docs|
  {
    if docs == [] then 0
    else
      var n := |docs| - 1;
      Failures(cfg, p, t, docs[..n], o, answers[..n])
      + if !Skips(t, docs[n], o) && (answers[n].None? || (!o.dryRun && Refused(cfg, p, docs[n], answers[n]))) then 1 else 0
  }

  lemma {:induction false} DryKeeps(cfg: Config, p: Pipeline, t: Tables, docs: seq<Loaded>, o: Options, answers: seq<Option<seq<Vec>>>)
    requires |answers| == |docs| && o.dryRun
    ensures IndexAll(cfg, p, t, docs, o, answers) == t
  {
    if docs != [] {
      DryKeeps(cfg, p, t, docs[..|docs| - 1], o, answers[..|docs| - 1]);
    }
  }

  /** The files before it do not decide whether a file is skipped or refused. */
  lemma NextAsAtFirst(cfg: Config, p: Pipeline, t: Tables, docs: seq<Loaded>, o: Options, answers: seq<Option<seq<Vec>>>, n: nat)
    requires |answers| == |docs| && DistinctPaths(docs) && Agree(cfg, t) && n < |docs|
    ensures var e := IndexAll(cfg, p, t, docs[..n], o, answers[..n]);
            && Skips(e, docs[n], o) == Skips(t, docs[n], o)
            && (answers[n].Some? ==>
                  (Replace(cfg, e, Record(docs[n]), ReadyChunks(p, docs[n]), answers[n]).None? <==> Refused(cfg, p, docs[n], answers[n])))
  {
    var e, id := IndexAll(cfg, p, t, docs[..n], o, answers[..n]), DocId(docs[n].path);
    if o.dryRun {
      DryKeeps(cfg, p, t, docs[..n], o, answers[..n]);
    } else {
      PlaceIs(docs, n);
      hide Agree, Seen, PlaceOf, Skips, IndexAll;
      IndexAllShows(cfg, p, t, docs, o, answers, n, id);
      SkipsBySeen(t, e, docs[n], o);
    }
    hide Agree, Seen, PlaceOf, Skips, IndexAll, Replace, Shown;
    ReadyChunksBelong(p, docs[n]);
    ReplaceKeeps(cfg, e, Record(docs[n]), ReadyChunks(p, docs[n]), answers[n], id);
  }

  /** What each counter of a run counts, in terms of the store it starts from. */
  lemma {:induction false} CountersMean(cfg: Config, p: Pipeline, t: Tables, s: Summary, docs: seq<Loaded>, o: Options,
                                        answers: seq<Option<seq<Vec>>>)
    requires |answers| == |docs| && DistinctPaths(docs) && Agree(cfg, t)
    ensures CountAll(cfg, p, t, s, docs, o, answers)
         == Summary(s.scanned, s.indexed + Embedded(t, docs, o, answers), s.skipped + Skipped(t, docs, o), s.deleted,
                    s.failed + Failures(cfg, p, t, docs, o, answers),
                    s.chunksCreated + EmbeddedChunks(p, t, docs, o, answers),
                    s.embeddingFailed + Failures(cfg, p, t, docs, o, answers))
  {
    if docs != [] {
      var n := |docs| - 1;
      CountersMean(cfg, p, t, s, docs[..n], o, answers[..n]);
      NextAsAtFirst(cfg, p, t, docs, o, answers, n);
      hide Agree, Replace, Skips, Refused, IndexAll, ReadyChunks;
    }
  }

  /** One refused write: the service answers with no embedding for a document that has chunks. */
  lemma RefusedWriteCountsTwice(cfg: Config, p: Pipeline, doc: Loaded)
    requires p.chunk(doc) != []
    ensures CountAll(cfg, p, EMPTY, StartSummary(EMPTY, [doc], 0, Options(false, false)), [doc], Options(false, false), [Some([])])
            == Summary(1, 1, 0, 0, 1, |p.chunk(doc)|, 1)
  {
    var o, answers := Options(false, false), [Some([])];
    var s := StartSummary(EMPTY, [doc], 0, o);
    assert Missing(EMPTY, Paths([doc])) == {};
    assert [doc][..0] == [] && answers[..0] == [];
    AllStep(cfg, p, EMPTY, s, [doc], o, answers, 0);
    assert [doc][..1] == [doc] && answers[..1] == answers;
    ReadyChunksBelong(p, doc);
    assert Agree(cfg, EMPTY);
    ReplaceKeeps(cfg, EMPTY, Record(doc), ReadyChunks(p, doc), Some([]), DocId(doc.path));
    hide Agree, Replace, Shown;
  }
}
