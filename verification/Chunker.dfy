/**
 MarkdownChunker.chunk of doc_rag/chunker.py: blocks under one heading are packed greedily, and a
 block over the limit is split on its own.
 */
module Chunker {
  import opened Text
  import opened ChunkText
  import opened SplitText
  import opened ParseBlocks
  import opened Chunks

  // ── packing blocks ─────────────────────────────────────────────

  /** flush() without its resets. */
  function Flushed(chunks: seq<Chunk>, current: seq<Block>, heading: string): seq<Chunk> {
    if current == [] || Packed(current) == [] then chunks
    else chunks + [MakeChunk(heading, Packed(current), |chunks|, current, HeadingBlock)]
  }

  /** A non-empty run of consecutive blocks. */
  ghost predicate Run(raw: seq<string>, title: string, g: seq<Block>) {
    && g != []
    && (forall k :: 0 <= k < |g| ==> BlockOk(Locate(raw), title, g[k]))
    && (forall k, m :: 0 <= k < m < |g| ==> g[k].end < g[m].start)
  }

  lemma RunExtent(raw: seq<string>, title: string, g: seq<Block>)
    requires Run(raw, title, g)
    ensures 1 <= g[0].start && g[|g| - 1].end <= |raw|
    ensures MinStart(g) == g[0].start && MaxEnd(g) == g[|g| - 1].end
    ensures forall k :: 0 <= k < |g| ==> MinStart(g) <= g[k].start <= g[k].end <= MaxEnd(g)
  {
    hide BlockOk, MinStart, MaxEnd;
    forall k | 0 <= k < |g| ensures 1 <= g[k].start <= g[k].end <= |raw| {
      BlockBounds(Locate(raw), title, g[k]);
    }
    Extent(g);
  }

  lemma MemberWithin(raw: seq<string>, title: string, g: seq<Block>, k: nat)
    requires Run(raw, title, g) && k < |g|
    ensures Within(raw, g[k].text, g[k].start, g[k].end)
  {
    hide Within, BlockOk, PathAt;
    BlockText(raw, title, g[k]);
    BlockWithin(raw, title, g[k]);
  }

  lemma TextsApart(raw: seq<string>, t: Located, u: Located, a: nat, b: nat, c: nat, d: nat)
    requires Within(raw, t, a, b) && Within(raw, u, c, d) && b < c
    ensures AllBefore(t, u)
  {
    hide InOrder, OfDocument;
    assert forall i :: 0 <= i < |t| ==> t[i] in t;
    assert forall j :: 0 <= j < |u| ==> u[j] in u;
  }

  lemma RunInOrder(raw: seq<string>, title: string, g: seq<Block>)
    requires Run(raw, title, g)
    ensures PiecesInOrder(Texts(g))
  {
    hide Within, BlockOk, InOrder, AllBefore;
    forall k, m | 0 <= k < m < |g| ensures AllBefore(Texts(g)[k], Texts(g)[m]) {
      MemberWithin(raw, title, g, k);
      MemberWithin(raw, title, g, m);
      TextsApart(raw, g[k].text, g[m].text, g[k].start, g[k].end, g[m].start, g[m].end);
    }
    forall k | 0 <= k < |g| ensures InOrder(Texts(g)[k]) {
      MemberWithin(raw, title, g, k);
      WithinInOrder(raw, g[k].text, g[k].start, g[k].end);
    }
  }

  lemma WithinInOrder(raw: seq<string>, t: Located, a: nat, b: nat)
    requires Within(raw, t, a, b)
    ensures InOrder(t)
  {
    hide InOrder;
  }

  lemma CharacterWithin(raw: seq<string>, t: Located, a: nat, b: nat, x: Ch)
    requires Within(raw, t, a, b) && x in t && !Inserted(x)
    ensures OfDocument(raw, x) && a <= x.line <= b
  {
    hide InOrder, OfDocument;
  }

  lemma JoinedWithin(raw: seq<string>, title: string, g: seq<Block>, x: Ch)
    requires g != [] && Run(raw, title, g) && x in Join(Texts(g), [NL, NL]) && !Inserted(x)
    ensures OfDocument(raw, x) && MinStart(g) <= x.line <= MaxEnd(g)
  {
    hide Run, Within, Join, OfDocument, MinStart, MaxEnd;
    RunExtent(raw, title, g);
    JoinOnlyHolds(Texts(g), [NL, NL], x);
    var k :| 0 <= k < |g| && x in Texts(g)[k];
    MemberWithin(raw, title, g, k);
    CharacterWithin(raw, g[k].text, g[k].start, g[k].end, x);
  }

  lemma PackedWithin(raw: seq<string>, title: string, g: seq<Block>)
    requires Run(raw, title, g)
    ensures Within(raw, Packed(g), MinStart(g), MaxEnd(g))
  {
    assert g != [];
    hide InOrder, PiecesInOrder, Run, Join, OfDocument, MinStart, MaxEnd, StripText;
    var t := Join(Texts(g), [NL, NL]);
    RunInOrder(raw, title, g);
    JoinInOrder(Texts(g), [NL, NL]);
    forall x | x in t && !Inserted(x) ensures OfDocument(raw, x) && MinStart(g) <= x.line <= MaxEnd(g) {
      JoinedWithin(raw, title, g, x);
    }
    StripWithin(raw, t, MinStart(g), MaxEnd(g));
  }

  /** The chunk packed from a run of blocks of one heading is in order and shows all of them. */
  lemma PackedChunk(cfg: Config, raw: seq<string>, title: string, g: seq<Block>, heading: string, index: nat)
    requires Run(raw, title, g) && |Packed(g)| <= cfg.max && Packed(g) != []
    requires forall k :: 0 <= k < |g| ==> g[k].heading == heading
    ensures ChunkOk(cfg, raw, title, MakeChunk(heading, Packed(g), index, g, HeadingBlock))
  {
    hide Within, Packed, PathAt, MinStart, MaxEnd, BlockOk;
    RunExtent(raw, title, g);
    PackedWithin(raw, title, g);
    forall x | x in Packed(g) && !Inserted(x) ensures UnderPath(raw, title, heading, x) {
      PackedUnderPath(raw, title, g, heading, x);
    }
  }

  lemma PackedUnderPath(raw: seq<string>, title: string, g: seq<Block>, heading: string, x: Ch)
    requires Run(raw, title, g) && x in Packed(g) && !Inserted(x)
    requires forall k :: 0 <= k < |g| ==> g[k].heading == heading
    ensures UnderPath(raw, title, heading, x)
  {
    hide BlockOk, Join, StripText, UnderPath;
    StripTextKeeps(Join(Texts(g), [NL, NL]));
    JoinOnlyHolds(Texts(g), [NL, NL], x);
    var k :| 0 <= k < |g| && x in Texts(g)[k];
    BlockUnderPath(raw, title, g[k], x);
  }

  lemma PackedShows(raw: seq<string>, title: string, g: seq<Block>, c: Chunk, k: nat)
    requires Run(raw, title, g) && k < |g|
    requires c.content == Packed(g) && c.start == MinStart(g) && c.end == MaxEnd(g)
    ensures BlockShown([c], g[k])
  {
    hide Within, Run, Join, StripText, OfDocument, MinStart, MaxEnd;
    RunExtent(raw, title, g);
    MemberWithin(raw, title, g, k);
    StripTextKeeps(Join(Texts(g), [NL, NL]));
    forall x | x in g[k].text && Visible(x) && !Inserted(x) ensures ShownBy([c], x) {
      CharacterWithin(raw, g[k].text, g[k].start, g[k].end, x);
      JoinHolds(Texts(g), [NL, NL], k);
      assert x in Texts(g)[k];
      assert Shows([c][0], x);
    }
  }

  lemma InvisibleBlock(g: seq<Block>, k: nat, chunks: seq<Chunk>)
    requires k < |g| && Packed(g) == []
    ensures BlockShown(chunks, g[k])
  {
    hide Join, StripText;
    StripTextKeeps(Join(Texts(g), [NL, NL]));
    JoinHolds(Texts(g), [NL, NL], k);
    assert Texts(g)[k] == g[k].text;
  }

  lemma StillShown(chunks: seq<Chunk>, more: seq<Chunk>, b: Block)
    requires BlockShown(chunks, b) || BlockShown(more, b)
    ensures BlockShown(chunks + more, b)
  {
    hide ShownBy;
    forall x | x in b.text && Visible(x) && !Inserted(x) ensures ShownBy(chunks + more, x) {
      ShownByMore(chunks, more, x);
    }
  }

  // ── greedy groups ──────────────────────────────────────────────

  /** Consecutive blocks and the chunks made of them. */
  datatype Group = Group(blocks: seq<Block>, chunks: seq<Chunk>)

  /** The blocks' texts with blank lines between, without surrounding white space. */
  function Together(bs: seq<Block>): Located {
    StripText(Join(Texts(bs), [NL, NL]))
  }

  /** One chunk of several blocks of one heading, or none if nothing is visible. */
  ghost predicate PackedGroup(cfg: Config, g: Group) {
    && (forall k :: 0 <= k < |g.blocks| ==> |g.blocks[k].text| <= cfg.max && g.blocks[k].heading == g.blocks[0].heading)
    && g.blocks != [] && |Together(g.blocks)| <= cfg.max
    && if Together(g.blocks) == [] then g.chunks == []
       else |g.chunks| == 1
            && g.chunks[0] == Chunk(g.blocks[0].heading, Together(g.blocks), g.chunks[0].index, set b | b in g.blocks :: b.kind,
                                    HeadingBlock, g.blocks[0].start, g.blocks[|g.blocks| - 1].end)
  }

  /** The chunks of one block over the limit. */
  ghost predicate SplitGroup(cfg: Config, g: Group)
    requires cfg.max > 0
  {
    && |g.blocks| == 1 && |g.blocks[0].text| > cfg.max
    && exists parts :: IsPartition(cfg, g.blocks[0], parts) && SplitChunks(g.blocks[0], parts, g.chunks)
  }

  /** Why the next block is not in the group: one of the two is over the limit, the heading changes, or both together are too long. */
  predicate EndsBefore(cfg: Config, g: Group, next: Block) {
    && g.blocks != []
    && (|| |g.blocks[0].text| > cfg.max || |next.text| > cfg.max
        || next.heading != g.blocks[0].heading
        || |Together(g.blocks + [next])| > cfg.max)
  }

  predicate LastEndsBefore(cfg: Config, groups: seq<Group>, next: Block) {
    groups != [] ==> EndsBefore(cfg, groups[|groups| - 1], next)
  }

  /** Each group is packed or split, and ends only where it must. */
  ghost predicate GroupsOk(cfg: Config, groups: seq<Group>)
    requires cfg.max > 0
  {
    groups != [] ==>
      var front, last := groups[..|groups| - 1], groups[|groups| - 1];
      && GroupsOk(cfg, front) && (PackedGroup(cfg, last) || SplitGroup(cfg, last))
      && LastEndsBefore(cfg, front, last.blocks[0])
  }

  function GroupBlocks(groups: seq<Group>): seq<Block> {
    if groups == [] then [] else GroupBlocks(groups[..|groups| - 1]) + groups[|groups| - 1].blocks
  }

  function GroupChunks(groups: seq<Group>): seq<Chunk> {
    if groups == [] then [] else GroupChunks(groups[..|groups| - 1]) + groups[|groups| - 1].chunks
  }

  /** The blocks fall into these groups one after the other, and the chunks are theirs. */
  ghost predicate Grouped(cfg: Config, groups: seq<Group>, blocks: seq<Block>, chunks: seq<Chunk>)
    requires cfg.max > 0
  {
    GroupsOk(cfg, groups) && GroupBlocks(groups) == blocks && GroupChunks(groups) == chunks
  }

  lemma GroupAdded(cfg: Config, groups: seq<Group>, g: Group, blocks: seq<Block>, chunks: seq<Chunk>)
    requires cfg.max > 0 && Grouped(cfg, groups, blocks, chunks)
    requires g.blocks != [] && (PackedGroup(cfg, g) || SplitGroup(cfg, g)) && LastEndsBefore(cfg, groups, g.blocks[0])
    ensures Grouped(cfg, groups + [g], blocks + g.blocks, chunks + g.chunks)
  {
    hide PackedGroup, SplitGroup, LastEndsBefore;
    SnocFront(groups, g);
  }

  /** What flush() makes of the blocks in hand. */
  function FlushedGroup(chunks: seq<Chunk>, current: seq<Block>, heading: string): Group {
    Group(current, if current == [] || Packed(current) == [] then [] else [MakeChunk(heading, Packed(current), |chunks|, current, HeadingBlock)])
  }

  lemma FlushedGroupOk(cfg: Config, raw: seq<string>, title: string, chunks: seq<Chunk>, current: seq<Block>, heading: string)
    requires Run(raw, title, current) && |Packed(current)| <= cfg.max
    requires forall k :: 0 <= k < |current| ==> current[k].heading == heading && |current[k].text| <= cfg.max
    ensures PackedGroup(cfg, FlushedGroup(chunks, current, heading))
    ensures Flushed(chunks, current, heading) == chunks + FlushedGroup(chunks, current, heading).chunks
  {
    hide Run, Packed, Together, MinStart, MaxEnd;
    RunExtent(raw, title, current);
    TogetherIsPacked(raw, title, current);
    assert chunks + [] == chunks;
  }

  lemma TogetherIsPacked(raw: seq<string>, title: string, bs: seq<Block>)
    ensures Together(bs) == Packed(bs) && (Run(raw, title, bs) ==> bs != [])
  {
  }

  // ── the loop ───────────────────────────────────────────────────

  /** Blocks before a are shown by the chunks; blocks a..b are in hand, of one heading, and fit. */
  ghost predicate Packing(cfg: Config, raw: seq<string>, title: string, blocks: seq<Block>, chunks: seq<Chunk>,
                          current: seq<Block>, heading: string, b: nat) {
    && |current| <= b <= |blocks| && current == blocks[b - |current|..b]
    && Numbered(chunks, 0)
    && (forall k :: 0 <= k < |chunks| ==> ChunkOk(cfg, raw, title, chunks[k]))
    && (forall m :: 0 <= m < b - |current| ==> BlockShown(chunks, blocks[m]))
    && (forall m :: 0 <= m < |current| ==> current[m].heading == heading)
    && (current != [] ==> |Packed(current)| <= cfg.max)
  }

  /** The groups of the blocks before those in hand, which are within the limit, and why the last group ended. */
  ghost predicate Grouping(cfg: Config, blocks: seq<Block>, groups: seq<Group>, chunks: seq<Chunk>, current: seq<Block>, b: nat)
    requires cfg.max > 0
  {
    && |current| <= b <= |blocks| && current == blocks[b - |current|..b]
    && Grouped(cfg, groups, blocks[..b - |current|], chunks)
    && (forall m :: 0 <= m < |current| ==> |current[m].text| <= cfg.max)
    && (current != [] ==> LastEndsBefore(cfg, groups, current[0]))
  }

  lemma FlushGroups(cfg: Config, raw: seq<string>, title: string, blocks: seq<Block>, groups: seq<Group>, chunks: seq<Chunk>,
                    current: seq<Block>, heading: string, b: nat)
    requires Parsed(raw, title, blocks) && Packing(cfg, raw, title, blocks, chunks, current, heading, b) && current != []
    requires cfg.max > 0 && Grouping(cfg, blocks, groups, chunks, current, b)
    ensures Grouping(cfg, blocks, groups + [FlushedGroup(chunks, current, heading)], Flushed(chunks, current, heading), [], b)
  {
    var a, g := b - |current|, FlushedGroup(chunks, current, heading);
    hide Run, Parsed, Packed, ChunkOk, BlockShown, Numbered, MinStart, MaxEnd, PackedGroup, SplitGroup, Grouped, LastEndsBefore, Flushed;
    SliceIsRun(raw, title, blocks, a, b);
    FlushedGroupOk(cfg, raw, title, chunks, current, heading);
    GroupAdded(cfg, groups, g, blocks[..a], chunks);
    assert blocks[..a] + blocks[a..b] == blocks[..b];
  }

  lemma LargeGroups(cfg: Config, blocks: seq<Block>, groups: seq<Group>, chunks: seq<Chunk>, parts: seq<Part>, more: seq<Chunk>, b: nat)
    requires cfg.max > 0 && Grouping(cfg, blocks, groups, chunks, [], b) && b < |blocks|
    requires |blocks[b].text| > cfg.max && LastEndsBefore(cfg, groups, blocks[b])
    requires IsPartition(cfg, blocks[b], parts) && SplitChunks(blocks[b], parts, more)
    ensures Grouping(cfg, blocks, groups + [Group([blocks[b]], more)], chunks + more, [], b + 1)
    ensures EndedFor(cfg, groups + [Group([blocks[b]], more)], [])
  {
    var g := Group([blocks[b]], more);
    hide IsPartition, SplitChunks, Grouped, LastEndsBefore, PackedGroup;
    assert SplitGroup(cfg, g);
    GroupAdded(cfg, groups, g, blocks[..b], chunks);
    TakeStep(blocks, b);
  }

  lemma TakeGroups(cfg: Config, blocks: seq<Block>, groups: seq<Group>, chunks: seq<Chunk>, current: seq<Block>, b: nat)
    requires cfg.max > 0 && Grouping(cfg, blocks, groups, chunks, current, b) && b < |blocks|
    requires |blocks[b].text| <= cfg.max && (current == [] ==> LastEndsBefore(cfg, groups, blocks[b]))
    ensures Grouping(cfg, blocks, groups, chunks, current + [blocks[b]], b + 1)
    ensures EndedFor(cfg, groups, current + [blocks[b]])
  {
    hide Grouped, LastEndsBefore;
  }

  /** With no block in hand, the last group is a block over the limit. */
  predicate EndedFor(cfg: Config, groups: seq<Group>, current: seq<Block>) {
    groups != [] && current == [] ==>
      var last := groups[|groups| - 1];
      last.blocks != [] && |last.blocks[0].text| > cfg.max
  }

  /** Whether blocks in hand stay or are flushed before the next block, the last group ends rightly. */
  lemma EndsRightly(cfg: Config, groups: seq<Group>, chunks: seq<Chunk>, current: seq<Block>, heading: string, next: Block)
    requires EndedFor(cfg, groups, current) && forall k :: 0 <= k < |current| ==> current[k].heading == heading
    ensures current == [] ==> LastEndsBefore(cfg, groups, next)
    ensures current != [] && (|next.text| > cfg.max || next.heading != heading || |Packed(current + [next])| > cfg.max) ==>
      LastEndsBefore(cfg, groups + [FlushedGroup(chunks, current, heading)], next)
  {
    hide MinStart, MaxEnd, MakeChunk, StripText, Join, Texts;
  }

  ghost predicate Parsed(raw: seq<string>, title: string, blocks: seq<Block>) {
    && (forall k :: 0 <= k < |blocks| ==> BlockOk(Locate(raw), title, blocks[k]))
    && (forall k, m :: 0 <= k < m < |blocks| ==> blocks[k].end < blocks[m].start)
  }

  lemma SliceIsRun(raw: seq<string>, title: string, blocks: seq<Block>, a: nat, b: nat)
    requires Parsed(raw, title, blocks) && a < b <= |blocks|
    ensures Run(raw, title, blocks[a..b])
  {
    hide BlockOk;
    var g := blocks[a..b];
    assert forall k :: 0 <= k < |g| ==> g[k] == blocks[a + k];
  }

  /** Flushing shows every block in hand. */
  lemma FlushShows(cfg: Config, raw: seq<string>, title: string, chunks: seq<Chunk>, current: seq<Block>, heading: string, k: nat)
    requires Run(raw, title, current) && k < |current|
    ensures BlockShown(Flushed(chunks, current, heading), current[k])
  {
    hide Run, Packed, BlockShown, MinStart, MaxEnd;
    if Packed(current) == [] {
      InvisibleBlock(current, k, chunks);
    } else {
      var c := MakeChunk(heading, Packed(current), |chunks|, current, HeadingBlock);
      PackedShows(raw, title, current, c, k);
      StillShown(chunks, [c], current[k]);
    }
  }

  lemma FlushGrows(chunks: seq<Chunk>, current: seq<Block>, heading: string, b: Block)
    requires BlockShown(chunks, b)
    ensures BlockShown(Flushed(chunks, current, heading), b)
  {
    hide Packed, BlockShown, MinStart, MaxEnd;
    if current != [] && Packed(current) != [] {
      StillShown(chunks, [MakeChunk(heading, Packed(current), |chunks|, current, HeadingBlock)], b);
    }
  }

  lemma FlushedOk(cfg: Config, raw: seq<string>, title: string, chunks: seq<Chunk>, current: seq<Block>, heading: string)
    requires Run(raw, title, current) && |Packed(current)| <= cfg.max
    requires forall k :: 0 <= k < |current| ==> current[k].heading == heading
    requires Numbered(chunks, 0) && forall k :: 0 <= k < |chunks| ==> ChunkOk(cfg, raw, title, chunks[k])
    ensures var out := Flushed(chunks, current, heading);
            Numbered(out, 0) && forall k :: 0 <= k < |out| ==> ChunkOk(cfg, raw, title, out[k])
  {
    hide Run, Packed, ChunkOk, MinStart, MaxEnd;
    if Packed(current) != [] {
      PackedChunk(cfg, raw, title, current, heading, |chunks|);
    }
  }

  lemma FlushKeeps(cfg: Config, raw: seq<string>, title: string, blocks: seq<Block>, chunks: seq<Chunk>,
                   current: seq<Block>, heading: string, b: nat)
    requires Parsed(raw, title, blocks) && Packing(cfg, raw, title, blocks, chunks, current, heading, b)
    ensures Packing(cfg, raw, title, blocks, Flushed(chunks, current, heading), [], "", b)
  {
    hide Run, Parsed, Packed, ChunkOk, BlockShown, Numbered, MinStart, MaxEnd;
    var a := b - |current|;
    if current != [] {
      SliceIsRun(raw, title, blocks, a, b);
      FlushedOk(cfg, raw, title, chunks, current, heading);
      forall m | 0 <= m < b ensures BlockShown(Flushed(chunks, current, heading), blocks[m]) {
        if m >= a {
          assert blocks[m] == current[m - a];
          FlushShows(cfg, raw, title, chunks, current, heading, m - a);
        } else {
          FlushGrows(chunks, current, heading, blocks[m]);
        }
      }
    }
  }

  lemma LargeKeeps(cfg: Config, raw: seq<string>, title: string, blocks: seq<Block>, chunks: seq<Chunk>,
                   more: seq<Chunk>, b: nat)
    requires Packing(cfg, raw, title, blocks, chunks, [], "", b) && b < |blocks|
    requires Numbered(more, |chunks|) && (forall k :: 0 <= k < |more| ==> ChunkOk(cfg, raw, title, more[k]))
    requires BlockShown(more, blocks[b])
    ensures Packing(cfg, raw, title, blocks, chunks + more, [], "", b + 1)
  {
    hide ChunkOk, BlockShown;
    forall m | 0 <= m < b + 1 ensures BlockShown(chunks + more, blocks[m]) {
      StillShown(chunks, more, blocks[m]);
    }
  }

  lemma TakeKeeps(cfg: Config, raw: seq<string>, title: string, blocks: seq<Block>, chunks: seq<Chunk>,
                  current: seq<Block>, heading: string, b: nat)
    requires Packing(cfg, raw, title, blocks, chunks, current, heading, b) && b < |blocks|
    requires current != [] ==> blocks[b].heading == heading
    requires |Packed(current + [blocks[b]])| <= cfg.max
    ensures Packing(cfg, raw, title, blocks, chunks, current + [blocks[b]], blocks[b].heading, b + 1)
  {
    hide ChunkOk, BlockShown, Packed;
  }

  lemma SingleFits(cfg: Config, b: Block)
    requires |b.text| <= cfg.max
    ensures |Packed([] + [b])| <= cfg.max
  {
    assert [] + [b] == [b] && Texts([b]) == [b.text];
    StripTextShorter(b.text);
  }

  /** The inner flush(), with the variables it resets as results. */
  method Flush(due: bool, chunks: seq<Chunk>, current: seq<Block>, heading: string,
               ghost cfg: Config, ghost raw: seq<string>, ghost title: string, ghost blocks: seq<Block>, ghost b: nat, ghost groups: seq<Group>)
    returns (chunks': seq<Chunk>, current': seq<Block>, heading': string, ghost groups': seq<Group>)
    requires Parsed(raw, title, blocks) && Packing(cfg, raw, title, blocks, chunks, current, heading, b)
    requires cfg.max > 0 && Grouping(cfg, blocks, groups, chunks, current, b)
    ensures Packing(cfg, raw, title, blocks, chunks', current', heading', b)
    ensures Grouping(cfg, blocks, groups', chunks', current', b)
    ensures if due && current != [] then current' == [] && groups' == groups + [FlushedGroup(chunks, current, heading)]
            else chunks' == chunks && current' == current && groups' == groups
    ensures if due then current' == [] && heading' == "" else heading' == heading
  {
    hide *;
    chunks', current', heading', groups' := chunks, current, heading, groups;
    if due {
      FlushKeeps(cfg, raw, title, blocks, chunks, current, heading, b);
      NothingFlushed(chunks, heading);
      if current != [] {
        FlushGroups(cfg, raw, title, blocks, groups, chunks, current, heading, b);
        groups' := groups + [FlushedGroup(chunks, current, heading)];
      }
      chunks', current', heading' := Flushed(chunks, current, heading), [], "";
    }
  }

  lemma NothingFlushed(chunks: seq<Chunk>, heading: string)
    ensures Flushed(chunks, [], heading) == chunks
  {
  }

  /**
   The whole chunker, on every document and configuration with a positive limit: the blocks of the
   document fall into groups, each as large as heading and limit allow, and the chunks are those of
   the groups; they are numbered in order, each one satisfies ChunkOk, and every visible character of
   every line is shown, as that very character, by a chunk whose line range contains the line.
   */
  method ChunkDocument(cfg: Config, raw: seq<string>, title: string)
    returns (chunks: seq<Chunk>, ghost blocks: seq<Block>, ghost groups: seq<Group>)
    requires cfg.max > 0
    ensures Laid(Locate(raw), title, blocks) && Grouped(cfg, groups, blocks, chunks)
    ensures Numbered(chunks, 0)
    ensures forall k :: 0 <= k < |chunks| ==> ChunkOk(cfg, raw, title, chunks[k])
    ensures AllShown(raw, chunks)
  {
    hide *;
    var parsed := ParseBlocks.Parse(Locate(raw), title);
    blocks := parsed;
    chunks, groups := [], [];
    var current: seq<Block>, heading := [], "";
    LaidIsParsed(raw, title, blocks);
    StartPacking(cfg, raw, title, blocks);
    for b := 0 to |parsed|
      invariant Packing(cfg, raw, title, blocks, chunks, current, heading, b)
      invariant Grouping(cfg, blocks, groups, chunks, current, b) && EndedFor(cfg, groups, current)
    {
      var block := parsed[b];
      OneHeading(cfg, raw, title, blocks, chunks, current, heading, b);
      EndsRightly(cfg, groups, chunks, current, heading, block);
      if |block.text| > cfg.max {
        chunks, current, heading, groups := Flush(true, chunks, current, heading, cfg, raw, title, blocks, b, groups);
        ParsedBlock(raw, title, blocks, b);
        ghost var parts;
        var more;
        more, parts := SplitLargeBlock(cfg, raw, title, block, |chunks|);
        LargeKeeps(cfg, raw, title, blocks, chunks, more, b);
        LargeGroups(cfg, blocks, groups, chunks, parts, more, b);
        groups := groups + [Group([block], more)];
        chunks := chunks + more;
        continue;
      }
      chunks, current, heading, groups := Flush(current != [] && block.heading != heading, chunks, current, heading,
                                                cfg, raw, title, blocks, b, groups);
      OneHeading(cfg, raw, title, blocks, chunks, current, heading, b);
      var candidate := Packed(current + [block]);
      SingleFits(cfg, block);
      chunks, current, heading, groups := Flush(current != [] && |candidate| > cfg.max, chunks, current, heading,
                                                cfg, raw, title, blocks, b, groups);
      TakeKeeps(cfg, raw, title, blocks, chunks, current, heading, b);
      TakeGroups(cfg, blocks, groups, chunks, current, b);
      current, heading := current + [block], block.heading;
    }
    chunks, current, heading, groups := Flush(true, chunks, current, heading, cfg, raw, title, blocks, |parsed|, groups);
    AllGrouped(cfg, blocks, groups, chunks);
    EverythingShown(cfg, raw, title, blocks, chunks);
  }

  lemma OneHeading(cfg: Config, raw: seq<string>, title: string, blocks: seq<Block>, chunks: seq<Chunk>,
                   current: seq<Block>, heading: string, b: nat)
    requires Packing(cfg, raw, title, blocks, chunks, current, heading, b)
    ensures forall k :: 0 <= k < |current| ==> current[k].heading == heading
  {
    hide ChunkOk, BlockShown, Packed;
  }

  lemma AllGrouped(cfg: Config, blocks: seq<Block>, groups: seq<Group>, chunks: seq<Chunk>)
    requires cfg.max > 0 && Grouping(cfg, blocks, groups, chunks, [], |blocks|)
    ensures Grouped(cfg, groups, blocks, chunks)
  {
    hide Grouped;
    assert blocks[..|blocks|] == blocks;
  }

  lemma LaidIsParsed(raw: seq<string>, title: string, blocks: seq<Block>)
    requires Laid(Locate(raw), title, blocks)
    ensures Parsed(raw, title, blocks)
  {
    hide BlockOk, Laid;
    LaidInOrder(Locate(raw), title, blocks);
  }

  lemma StartPacking(cfg: Config, raw: seq<string>, title: string, blocks: seq<Block>)
    ensures Packing(cfg, raw, title, blocks, [], [], "", 0)
    ensures cfg.max > 0 ==> Grouping(cfg, blocks, [], [], [], 0) && EndedFor(cfg, [], [])
  {
    hide ChunkOk, BlockShown, Packed;
  }

  lemma ParsedBlock(raw: seq<string>, title: string, blocks: seq<Block>, b: nat)
    requires Parsed(raw, title, blocks) && b < |blocks|
    ensures BlockOk(Locate(raw), title, blocks[b])
  {
    hide BlockOk;
  }

  /** Character j of line i, for every visible character of the document, is shown. */
  ghost predicate AllShown(raw: seq<string>, chunks: seq<Chunk>) {
    forall i, j :: 0 <= i < |raw| && 0 <= j < |raw[i]| && !IsSpace(raw[i][j]) ==>
      ShownBy(chunks, Ch(raw[i][j], i + 1, j))
  }

  lemma EverythingShown(cfg: Config, raw: seq<string>, title: string, blocks: seq<Block>, chunks: seq<Chunk>)
    requires Packing(cfg, raw, title, blocks, chunks, [], "", |blocks|)
    requires Laid(Locate(raw), title, blocks) && BlankBetween(Locate(raw), LastEnd(blocks), |raw|)
    ensures Numbered(chunks, 0) && forall k :: 0 <= k < |chunks| ==> ChunkOk(cfg, raw, title, chunks[k])
    ensures AllShown(raw, chunks)
  {
    hide Laid, BlockOk, ChunkOk, BlockShown, ShownBy;
    LaidInOrder(Locate(raw), title, blocks);
    forall i, j | 0 <= i < |raw| && 0 <= j < |raw[i]| && !IsSpace(raw[i][j])
      ensures ShownBy(chunks, Ch(raw[i][j], i + 1, j))
    {
      CharacterShown(raw, title, blocks, chunks, i, j);
    }
  }

  lemma CharacterShown(raw: seq<string>, title: string, blocks: seq<Block>, chunks: seq<Chunk>, i: nat, j: nat)
    requires Laid(Locate(raw), title, blocks) && BlankBetween(Locate(raw), LastEnd(blocks), |raw|)
    requires forall m :: 0 <= m < |blocks| ==> BlockShown(chunks, blocks[m])
    requires i < |raw| && j < |raw[i]| && !IsSpace(raw[i][j])
    ensures ShownBy(chunks, Ch(raw[i][j], i + 1, j))
  {
    hide Laid, BlockOk, ShownBy, IsSpace;
    var x, line := Ch(raw[i][j], i + 1, j), LocateLine(raw[i], i + 1);
    VisibleLine(raw, i, j);
    LaidInOrder(Locate(raw), title, blocks);
    EveryLineInOneBlock(Locate(raw), title, blocks, i);
    var k :| 0 <= k < |blocks| && Covers(blocks[k], i + 1);
    BlockHolds(raw, title, blocks[k], i, x);
    assert x in blocks[k].text && BlockShown(chunks, blocks[k]) && !Inserted(x);
  }

  /** A line with a visible character is not blank. */
  lemma VisibleLine(raw: seq<string>, i: nat, j: nat)
    requires i < |raw| && j < |raw[i]| && !IsSpace(raw[i][j])
    ensures var x, line := Ch(raw[i][j], i + 1, j), LocateLine(raw[i], i + 1);
            x in line && Visible(x) && Locate(raw)[i] == line && !BlankLine(Locate(raw)[i])
  {
    var x, line := Ch(raw[i][j], i + 1, j), LocateLine(raw[i], i + 1);
    assert line[j] == x;
    assert x in line && Visible(x);
    StripTextEmptyIff(line);
  }
}
