/** Chunks of doc_rag/chunker.py, what makes one sound, and those of a block over the limit. */
module Chunks {
  import opened ChunkText
  import opened SplitText
  import SplitTable
  import opened ParseBlocks

  datatype Chunk = Chunk(heading: string, content: Located, index: nat, kinds: set<Kind>, reason: Reason,
                         start: nat, end: nat)

  // ── the document as located lines ──────────────────────────────

  function LocateLine(s: string, n: nat): Located {
    seq(|s|, j requires 0 <= j < |s| => Ch(s[j], n, j))
  }

  /** Line i of the document is line i + 1 of its chunks. */
  function Locate(raw: seq<string>): (lines: seq<Located>)
    ensures |lines| == |raw|
    ensures forall i :: 0 <= i < |raw| ==> lines[i] == LocateLine(raw[i], i + 1)
  {
    seq(|raw|, i requires 0 <= i < |raw| => LocateLine(raw[i], i + 1))
  }

  /** x is a character of the document, at the place it claims. */
  predicate OfDocument(raw: seq<string>, x: Ch) {
    1 <= x.line <= |raw| && x.col < |raw[x.line - 1]| && raw[x.line - 1][x.col] == x.c
  }

  lemma LinesInOrder(raw: seq<string>, a: nat, b: nat)
    requires a <= b <= |raw|
    ensures PiecesInOrder(Locate(raw)[a..b])
  {
    var ps := Locate(raw)[a..b];
    assert forall k :: 0 <= k < |ps| ==> ps[k] == LocateLine(raw[a + k], a + k + 1);
  }

  /** What a stretch of characters between two lines of the document looks like. */
  ghost predicate Within(raw: seq<string>, t: Located, start: nat, end: nat) {
    && InOrder(t)
    && forall x :: x in t && !Inserted(x) ==> OfDocument(raw, x) && start <= x.line <= end
  }

  lemma LineWithin(raw: seq<string>, a: nat, b: nat, k: nat, x: Ch)
    requires a <= b <= |raw| && k < b - a && x in Locate(raw)[a..b][k]
    ensures OfDocument(raw, x) && a + 1 <= x.line <= b
  {
    var line := LocateLine(raw[a + k], a + k + 1);
    assert Locate(raw)[a..b][k] == line;
    var j :| 0 <= j < |line| && line[j] == x;
  }

  lemma RangeWithin(raw: seq<string>, a: nat, b: nat)
    requires a <= b <= |raw|
    ensures Within(raw, Join(Locate(raw)[a..b], [NL]), a + 1, b)
  {
    var ps := Locate(raw)[a..b];
    hide InOrder, PiecesInOrder, Join, OfDocument;
    LinesInOrder(raw, a, b);
    JoinInOrder(ps, [NL]);
    forall x | x in Join(ps, [NL]) && !Inserted(x) ensures OfDocument(raw, x) && a + 1 <= x.line <= b {
      JoinOnlyHolds(ps, [NL], x);
      var k :| 0 <= k < |ps| && x in ps[k];
      LineWithin(raw, a, b, k, x);
    }
  }

  lemma StripWithin(raw: seq<string>, t: Located, a: nat, b: nat)
    requires Within(raw, t, a, b)
    ensures Within(raw, StripText(t), a, b)
  {
    hide InOrder, OfDocument, StripText;
    StripInOrder(t);
    StripTextKeeps(t);
  }

  /** A block's lines joined, of which its text is all but surrounding white space. */
  function RangeText(raw: seq<string>, b: Block): Located
    requires 1 <= b.start <= b.end <= |raw|
  {
    Join(Locate(raw)[b.start - 1..b.end], [NL])
  }

  lemma BlockText(raw: seq<string>, title: string, b: Block)
    requires BlockOk(Locate(raw), title, b)
    ensures 1 <= b.start <= b.end <= |raw|
    ensures b.text == RangeText(raw, b) || b.text == StripText(RangeText(raw, b))
    ensures forall l :: b.start <= l <= b.end ==> b.heading == PathAt(Locate(raw), title, l)
  {
  }

  lemma BlockWithin(raw: seq<string>, title: string, b: Block)
    requires BlockOk(Locate(raw), title, b)
    ensures Within(raw, b.text, b.start, b.end)
  {
    hide BlockOk, Within, StripText, Join;
    BlockText(raw, title, b);
    RangeWithin(raw, b.start - 1, b.end);
    StripWithin(raw, RangeText(raw, b), b.start, b.end);
  }

  /** Every visible character of a block's lines is in its text. */
  lemma BlockHolds(raw: seq<string>, title: string, b: Block, i: nat, x: Ch)
    requires BlockOk(Locate(raw), title, b) && b.start <= i + 1 <= b.end
    requires i < |raw| && x in LocateLine(raw[i], i + 1) && Visible(x)
    ensures x in b.text
  {
    hide BlockOk, Within, StripText, Join, Visible;
    BlockText(raw, title, b);
    var ps := Locate(raw)[b.start - 1..b.end];
    assert ps[i - (b.start - 1)] == LocateLine(raw[i], i + 1);
    JoinHolds(ps, [NL], i - (b.start - 1));
    StripTextKeeps(RangeText(raw, b));
  }

  // ── chunks ─────────────────────────────────────────────────────

  function MinStart(bs: seq<Block>): nat
    requires bs != []
  {
    if |bs| == 1 then bs[0].start
    else
      var m := MinStart(bs[1..]);
      if bs[0].start < m then bs[0].start else m
  }

  function MaxEnd(bs: seq<Block>): nat
    requires bs != []
  {
    if |bs| == 1 then bs[0].end
    else
      var m := MaxEnd(bs[1..]);
      if bs[0].end > m then bs[0].end else m
  }

  function MakeChunk(heading: string, content: Located, index: nat, bs: seq<Block>, reason: Reason): Chunk
    requires bs != []
  {
    Chunk(heading, content, index, set b | b in bs :: b.kind, reason, MinStart(bs), MaxEnd(bs))
  }

  function Texts(bs: seq<Block>): (ts: seq<Located>)
    ensures |ts| == |bs| && forall i :: 0 <= i < |bs| ==> ts[i] == bs[i].text
  {
    seq(|bs|, i requires 0 <= i < |bs| => bs[i].text)
  }

  function Packed(bs: seq<Block>): Located {
    StripText(Join(Texts(bs), [NL, NL]))
  }

  lemma {:induction false} Extent(bs: seq<Block>)
    requires bs != []
    requires forall k :: 0 <= k < |bs| ==> bs[k].start <= bs[k].end
    requires forall k, m :: 0 <= k < m < |bs| ==> bs[k].end < bs[m].start
    ensures MinStart(bs) == bs[0].start && MaxEnd(bs) == bs[|bs| - 1].end
  {
    if |bs| > 1 {
      Extent(bs[1..]);
    }
  }

  /** The character's line has the heading path. */
  predicate UnderPath(raw: seq<string>, title: string, heading: string, x: Ch) {
    x.line <= |raw| && PathAt(Locate(raw), title, x.line) == heading
  }

  lemma BlockUnderPath(raw: seq<string>, title: string, b: Block, x: Ch)
    requires BlockOk(Locate(raw), title, b) && x in b.text && !Inserted(x)
    ensures UnderPath(raw, title, b.heading, x)
  {
    hide InOrder, PathAt, OfDocument;
    BlockText(raw, title, b);
    BlockWithin(raw, title, b);
  }

  /**
   A chunk: in document order, made of the document's own characters from its line range (and of
   inserted line breaks), all of them standing under its heading path, and within the limit unless
   flagged, which only happens to a single row of a table under the table's two header lines.
   */
  ghost predicate ChunkOk(cfg: Config, raw: seq<string>, title: string, c: Chunk) {
    && 1 <= c.start <= c.end <= |raw|
    && Within(raw, c.content, c.start, c.end)
    && c.content != []
    && (forall x :: x in c.content && !Inserted(x) ==> UnderPath(raw, title, c.heading, x))
    && (c.reason == UnbreakableTooLarge <==> |c.content| > cfg.max)
    && (c.reason == UnbreakableTooLarge ==> c.kinds == {Table} && SingleRow(raw, title, c))
  }

  /** The chunk is one row, under its header lines, of a table block of the document. */
  ghost predicate SingleRow(raw: seq<string>, title: string, c: Chunk) {
    exists b: Block :: BlockOk(Locate(raw), title, b) && b.kind == Table && RowOf(b, c)
  }

  ghost predicate RowOf(b: Block, c: Chunk) {
    && c.start == b.start && c.end == b.end && c.heading == b.heading
    && exists r: nat :: SplitTable.IsRow(b.text, r, c.content)
  }

  predicate Shows(c: Chunk, x: Ch) {
    c.start <= x.line <= c.end && x in c.content
  }

  predicate ShownBy(chunks: seq<Chunk>, x: Ch) {
    exists k :: 0 <= k < |chunks| && Shows(chunks[k], x)
  }

  ghost predicate BlockShown(chunks: seq<Chunk>, b: Block) {
    forall x :: x in b.text && Visible(x) && !Inserted(x) ==> ShownBy(chunks, x)
  }

  lemma ShownByMore(chunks: seq<Chunk>, more: seq<Chunk>, x: Ch)
    requires ShownBy(chunks, x) || ShownBy(more, x)
    ensures ShownBy(chunks + more, x)
  {
    var all := chunks + more;
    if ShownBy(chunks, x) {
      var k :| 0 <= k < |chunks| && Shows(chunks[k], x);
      assert Shows(all[k], x);
    } else {
      var k :| 0 <= k < |more| && Shows(more[k], x);
      assert Shows(all[|chunks| + k], x);
    }
  }

  // ── splitting a large block ────────────────────────────────────

  ghost predicate Numbered(chunks: seq<Chunk>, start: nat) {
    forall k :: 0 <= k < |chunks| ==> chunks[k].index == start + k
  }

  /** What a block over the limit is split into: a table by rows, anything else as text. */
  ghost predicate IsPartition(cfg: Config, b: Block, parts: seq<Part>)
    requires cfg.max > 0
  {
    var lines := SplitTable.NonBlank(SplitLines(b.text));
    if b.kind == Table && |lines| >= 3 then exists groups :: SplitTable.TableSplit(cfg, lines, groups, parts)
    else IsTextSplit(cfg, b.text, parts)
  }

  /** One chunk per part, with the block's heading, kind and lines. */
  ghost predicate SplitChunks(b: Block, parts: seq<Part>, chunks: seq<Chunk>) {
    && |chunks| == |parts|
    && forall k :: 0 <= k < |chunks| ==>
         chunks[k] == Chunk(b.heading, parts[k].content, chunks[k].index, {b.kind}, parts[k].reason, b.start, b.end)
  }

  /** The part of the code that tells tables from other blocks. */
  method PartsOf(cfg: Config, b: Block) returns (parts: seq<Part>)
    requires cfg.max > 0
    ensures SplitOk(cfg, b.text, parts)
    ensures if b.kind == Table then SplitTable.FlaggedRows(b.text, parts) else WithinLimit(cfg, parts)
    ensures IsPartition(cfg, b, parts)
  {
    hide SplitOk, WithinLimit, SplitTable.TableSplit, SplitTable.NonBlank, SplitTable.Flatten, SplitTable.FlaggedRows, IsTextSplit;
    if b.kind == Table {
      ghost var groups;
      parts, groups := SplitTable.Split(cfg, b.text);
    } else {
      ghost var windows;
      parts, windows := SplitText.Split(cfg, b.text);
      SplitTextOk(cfg, b.text);
    }
  }

  function PartChunk(b: Block, part: Part, index: nat): Chunk {
    MakeChunk(b.heading, part.content, index, [b], part.reason)
  }

  function PartChunks(b: Block, parts: seq<Part>, start: nat): (chunks: seq<Chunk>)
    ensures |chunks| == |parts| && forall k :: 0 <= k < |parts| ==> chunks[k] == PartChunk(b, parts[k], start + k)
  {
    seq(|parts|, k requires 0 <= k < |parts| => PartChunk(b, parts[k], start + k))
  }

  lemma PartChunksStep(b: Block, parts: seq<Part>, start: nat, n: nat)
    requires n < |parts|
    ensures PartChunks(b, parts[..n + 1], start) == PartChunks(b, parts[..n], start) + [PartChunk(b, parts[n], start + n)]
  {
    hide PartChunk;
  }

  method SplitLargeBlock(cfg: Config, ghost raw: seq<string>, ghost title: string, b: Block, startIndex: nat)
    returns (chunks: seq<Chunk>, ghost parts: seq<Part>)
    requires cfg.max > 0 && BlockOk(Locate(raw), title, b)
    ensures IsPartition(cfg, b, parts) && SplitChunks(b, parts, chunks)
    ensures Numbered(chunks, startIndex)
    ensures forall k :: 0 <= k < |chunks| ==> ChunkOk(cfg, raw, title, chunks[k])
    ensures BlockShown(chunks, b)
  {
    var split := PartsOf(cfg, b);
    parts := split;
    chunks := [];
    assert parts[..|parts|] == parts;
    hide *;
    for offset := 0 to |split|
      invariant chunks == PartChunks(b, parts[..offset], startIndex)
    {
      PartChunksStep(b, parts, startIndex, offset);
      chunks := chunks + [PartChunk(b, split[offset], startIndex + offset)];
    }
    PartChunksAre(b, parts, startIndex);
    SplitChunksOk(cfg, raw, title, b, startIndex, parts, chunks);
  }

  /** The chunk made of one block. */
  lemma OneBlockChunk(b: Block, part: Part, index: nat)
    ensures PartChunk(b, part, index) == Chunk(b.heading, part.content, index, {b.kind}, part.reason, b.start, b.end)
  {
    assert (set d | d in [b] :: d.kind) == {b.kind};
  }

  lemma PartChunksAre(b: Block, parts: seq<Part>, start: nat)
    ensures SplitChunks(b, parts, PartChunks(b, parts, start))
  {
    hide PartChunk;
    forall k | 0 <= k < |parts|
      ensures PartChunk(b, parts[k], start + k) == Chunk(b.heading, parts[k].content, start + k, {b.kind}, parts[k].reason, b.start, b.end)
    {
      OneBlockChunk(b, parts[k], start + k);
    }
  }

  lemma PartWithin(cfg: Config, raw: seq<string>, title: string, b: Block, part: Part)
    requires BlockOk(Locate(raw), title, b) && PartOk(cfg, b.text, part)
    ensures 1 <= b.start <= b.end <= |raw| && Within(raw, part.content, b.start, b.end)
    ensures forall x :: x in part.content && !Inserted(x) ==> UnderPath(raw, title, b.heading, x)
  {
    BlockWithin(raw, title, b);
    BlockBounds(Locate(raw), title, b);
    hide InOrder, UnderPath, OfDocument, BlockOk;
    forall x | x in part.content && !Inserted(x) ensures UnderPath(raw, title, b.heading, x) {
      BlockUnderPath(raw, title, b, x);
    }
  }

  lemma PartChunkOk(cfg: Config, raw: seq<string>, title: string, b: Block, part: Part, index: nat)
    requires BlockOk(Locate(raw), title, b) && PartOk(cfg, b.text, part)
    requires b.kind != Table ==> |part.content| <= cfg.max
    requires b.kind == Table && part.reason == UnbreakableTooLarge ==> exists r: nat :: SplitTable.IsRow(b.text, r, part.content)
    ensures ChunkOk(cfg, raw, title, PartChunk(b, part, index))
  {
    var c := PartChunk(b, part, index);
    OneBlockChunk(b, part, index);
    hide SplitTable.IsRow, Within, UnderPath, BlockOk, PartChunk;
    PartWithin(cfg, raw, title, b, part);
    if part.reason == UnbreakableTooLarge {
      assert RowOf(b, c);
    }
  }

  lemma SplitChunksOk(cfg: Config, raw: seq<string>, title: string, b: Block, startIndex: nat, parts: seq<Part>, chunks: seq<Chunk>)
    requires BlockOk(Locate(raw), title, b) && SplitOk(cfg, b.text, parts)
    requires if b.kind == Table then SplitTable.FlaggedRows(b.text, parts) else WithinLimit(cfg, parts)
    requires chunks == PartChunks(b, parts, startIndex)
    ensures Numbered(chunks, startIndex)
    ensures forall k :: 0 <= k < |chunks| ==> ChunkOk(cfg, raw, title, chunks[k])
    ensures BlockShown(chunks, b)
  {
    forall k | 0 <= k < |chunks| ensures ChunkOk(cfg, raw, title, chunks[k]) {
      PartChunkOk(cfg, raw, title, b, parts[k], startIndex + k);
    }
    BlockWithin(raw, title, b);
    hide ChunkOk, BlockOk, PartOk;
    forall x | x in b.text && Visible(x) && !Inserted(x) ensures ShownBy(chunks, x) {
      assert ShownIn(parts, x);
      var k :| 0 <= k < |parts| && x in parts[k].content;
      assert Shows(chunks[k], x);
    }
  }
}
