/**
 Reassembling a streamed reply (agent/provider.py:320-409, 577-602): tool-call fragments are
 collected per index, content is shown to the user until the first tool call.
 */
module Streaming {
  import opened Text
  import opened Sorting

  /** One element of a delta's tool_calls list; the index may be missing. */
  datatype RawItem = RawItem(index: Option<int>, id: string, name: string, arguments: string)

  datatype Fragment = Fragment(index: int, id: string, name: string, arguments: string)

  /** A chunk without choices or delta, or one with possibly empty pieces. */
  datatype Chunk = NoDelta | Delta(reasoning: string, items: seq<RawItem>, content: string)

  /** What the user is shown, piece by piece. */
  datatype Shown = Thinking(text: string) | Content(text: string)

  datatype Slot = Slot(id: string, name: string, arguments: string)

  datatype ToolCall = ToolCall(id: string, name: string, rawArguments: string)

  datatype Response = Response(content: Option<string>, thinking: Option<string>, calls: seq<ToolCall>)

  // ── fragments ──────────────────────────────────────────────────

  /** _iter_tool_call_deltas: an item without an index gets its position. */
  function Fragments(items: seq<RawItem>): (fs: seq<Fragment>)
    ensures |fs| == |items|
    ensures forall i :: 0 <= i < |fs| ==>
              fs[i] == Fragment(match items[i].index case Some(k) => k case None => i, items[i].id, items[i].name, items[i].arguments)
  {
    seq(|items|, i requires 0 <= i < |items| =>
      Fragment(if items[i].index.Some? then items[i].index.value else i, items[i].id, items[i].name, items[i].arguments))
  }

  function ItemsOf(c: Chunk): seq<RawItem> {
    if c.Delta? then c.items else []
  }

  /** All fragments of a stream, in order of arrival. */
  function AllFragments(chunks: seq<Chunk>): seq<Fragment> {
    if chunks == [] then []
    else AllFragments(chunks[..|chunks| - 1]) + Fragments(ItemsOf(chunks[|chunks| - 1]))
  }

  /** The fragments of one index, in order of arrival. */
  function OfIndex(fs: seq<Fragment>, k: int): seq<Fragment> {
    if fs == [] then []
    else
      var last := fs[|fs| - 1];
      OfIndex(fs[..|fs| - 1], k) + if last.index == k then [last] else []
  }

  function Cat(a: string, b: string): string {
    a + b
  }

  lemma CatEmpty(a: string)
    ensures Cat(a, "") == a
  {
  }

  function Append(slot: Slot, f: Fragment): Slot {
    Slot(Cat(slot.id, f.id), Cat(slot.name, f.name), Cat(slot.arguments, f.arguments))
  }

  /** The fields of fragments joined in order. */
  function JoinedSlot(fs: seq<Fragment>): Slot {
    if fs == [] then Slot("", "", "") else Append(JoinedSlot(fs[..|fs| - 1]), fs[|fs| - 1])
  }

  function CallOf(slot: Slot): ToolCall {
    ToolCall(slot.id, slot.name, if slot.arguments == "" then "{}" else slot.arguments)
  }

  /** The call made of an index's own fragments. */
  function CallFor(fs: seq<Fragment>, k: int): ToolCall {
    CallOf(JoinedSlot(OfIndex(fs, k)))
  }

  datatype Field = Id | Name | Arguments

  function Piece(f: Fragment, field: Field): string {
    match field
    case Id => f.id
    case Name => f.name
    case Arguments => f.arguments
  }

  /** One field of an index's fragments, joined in order of arrival. */
  function FieldText(fs: seq<Fragment>, k: int, field: Field): string {
    if fs == [] then ""
    else
      var last := fs[|fs| - 1];
      FieldText(fs[..|fs| - 1], k, field) + if last.index == k then Piece(last, field) else ""
  }

  function ArgumentsText(fs: seq<Fragment>, k: int): string {
    if FieldText(fs, k, Arguments) == "" then "{}" else FieldText(fs, k, Arguments)
  }

  lemma {:induction false} SlotFields(fs: seq<Fragment>, k: int)
    ensures JoinedSlot(OfIndex(fs, k)) == Slot(FieldText(fs, k, Id), FieldText(fs, k, Name), FieldText(fs, k, Arguments))
  {
    if fs != [] {
      var front, last := fs[..|fs| - 1], fs[|fs| - 1];
      SlotFields(front, k);
      FrontLast(fs);
      OfIndexSnoc(front, last, k);
      OfIndexSnoc(OfIndex(front, k), last, k);
      assert OfIndex(front, k) + [] == OfIndex(front, k);
      hide OfIndex, JoinedSlot;
    }
  }

  /** The call of an index: each field is that of its fragments, and missing arguments are an empty object. */
  lemma CallForIs(fs: seq<Fragment>, k: int)
    ensures CallFor(fs, k) == ToolCall(FieldText(fs, k, Id), FieldText(fs, k, Name), ArgumentsText(fs, k))
  {
    SlotFields(fs, k);
    hide JoinedSlot, OfIndex, FieldText;
  }

  // ── what the assembled calls must be ───────────────────────────

  ghost function Indices(fs: seq<Fragment>): set<int> {
    set f | f in fs :: f.index
  }

  predicate Increasing(s: seq<int>) {
    forall i, j :: 0 <= i < j < |s| ==> s[i] < s[j]
  }

  /** One call per index that occurs, in order of index, each made of its own fragments only. */
  ghost predicate IsAssembly(fs: seq<Fragment>, order: seq<int>, calls: seq<ToolCall>) {
    && Increasing(order) && Elems(order) == Indices(fs) && |calls| == |order|
    && forall j :: 0 <= j < |order| ==>
         calls[j] == ToolCall(FieldText(fs, order[j], Id), FieldText(fs, order[j], Name), ArgumentsText(fs, order[j]))
  }

  /** Two streams with the same fragments per index, however interleaved. */
  ghost predicate SamePerIndex(a: seq<Fragment>, b: seq<Fragment>) {
    forall k :: OfIndex(a, k) == OfIndex(b, k)
  }

  lemma {:induction false} OfIndexEmptyIff(fs: seq<Fragment>, k: int)
    ensures OfIndex(fs, k) == [] <==> k !in Indices(fs)
  {
    if fs != [] {
      var front, last := fs[..|fs| - 1], fs[|fs| - 1];
      OfIndexEmptyIff(front, k);
      assert fs == front + [last];
      assert forall f :: f in fs <==> f in front || f == last;
    }
  }

  lemma {:induction false} IncreasingUnique(a: seq<int>, b: seq<int>)
    requires Increasing(a) && Increasing(b) && Elems(a) == Elems(b)
    ensures a == b
  {
    assert forall k :: k in a <==> k in Elems(a);
    assert forall k :: k in b <==> k in Elems(b);
    assert a == [] ==> Elems(a) == {};
    assert |b| > 0 ==> b[0] in Elems(b);
    if a != [] {
      var x := a[|a| - 1];
      assert x in b;
      var y := b[|b| - 1];
      assert y in a;
      var a', b' := a[..|a| - 1], b[..|b| - 1];
      assert forall k :: k in a' <==> k in a && k != x;
      assert forall k :: k in b' <==> k in b && k != y;
      IncreasingUnique(a', b');
    }
  }

  /** Reassembly does not depend on how the calls' fragments are interleaved. */
  lemma InterleavingDoesNotMatter(a: seq<Fragment>, b: seq<Fragment>, orderA: seq<int>, orderB: seq<int>, callsA: seq<ToolCall>, callsB: seq<ToolCall>)
    requires SamePerIndex(a, b)
    requires IsAssembly(a, orderA, callsA) && IsAssembly(b, orderB, callsB)
    ensures callsA == callsB && orderA == orderB
  {
    forall k ensures k in Indices(a) <==> k in Indices(b) {
      OfIndexEmptyIff(a, k);
      OfIndexEmptyIff(b, k);
    }
    assert Indices(a) == Indices(b);
    IncreasingUnique(orderA, orderB);
    hide OfIndex, JoinedSlot, CallOf, Indices, Increasing, Elems, FieldText;
    forall j | 0 <= j < |orderA| ensures callsA[j] == callsB[j] {
      CallForIs(a, orderA[j]);
      CallForIs(b, orderA[j]);
    }
  }

  // ── what is shown ──────────────────────────────────────────────

  /** The first chunk with a tool-call fragment; the number of chunks if there is none. */
  function FirstToolChunk(chunks: seq<Chunk>): (n: nat)
    ensures n <= |chunks|
  {
    if chunks == [] || ItemsOf(chunks[0]) != [] then 0 else 1 + FirstToolChunk(chunks[1..])
  }

  lemma {:induction false} FirstToolChunkSpec(chunks: seq<Chunk>)
    ensures var n := FirstToolChunk(chunks);
            && (forall i :: 0 <= i < n ==> ItemsOf(chunks[i]) == [])
            && (n < |chunks| ==> ItemsOf(chunks[n]) != [])
  {
    if chunks != [] && ItemsOf(chunks[0]) == [] {
      FirstToolChunkSpec(chunks[1..]);
      assert forall i :: 0 < i < |chunks| ==> chunks[i] == chunks[1..][i - 1];
    }
  }

  function ContentPiece(c: Chunk): string {
    if c.Delta? then c.content else ""
  }

  function ReasoningPiece(c: Chunk): string {
    if c.Delta? then c.reasoning else ""
  }

  function ContentOf(chunks: seq<Chunk>): string {
    if chunks == [] then "" else Cat(ContentOf(chunks[..|chunks| - 1]), ContentPiece(chunks[|chunks| - 1]))
  }

  function ReasoningOf(chunks: seq<Chunk>): string {
    if chunks == [] then "" else Cat(ReasoningOf(chunks[..|chunks| - 1]), ReasoningPiece(chunks[|chunks| - 1]))
  }

  function ContentText(s: Shown): string {
    if s.Content? then s.text else ""
  }

  function ThinkingText(s: Shown): string {
    if s.Thinking? then s.text else ""
  }

  function ShownContent(shown: seq<Shown>): string {
    if shown == [] then "" else Cat(ShownContent(shown[..|shown| - 1]), ContentText(shown[|shown| - 1]))
  }

  function ShownThinking(shown: seq<Shown>): string {
    if shown == [] then "" else Cat(ShownThinking(shown[..|shown| - 1]), ThinkingText(shown[|shown| - 1]))
  }

  /** The chunks whose reasoning is shown: the first one with a tool call still counts. */
  function ThinkingChunks(chunks: seq<Chunk>): (n: nat)
    ensures n <= |chunks|
  {
    var n := FirstToolChunk(chunks);
    if n < |chunks| then n + 1 else n
  }

  lemma {:induction false} ContentPrefix(chunks: seq<Chunk>, n: nat)
    requires n <= |chunks|
    ensures ContentOf(chunks[..n]) <= ContentOf(chunks) && ReasoningOf(chunks[..n]) <= ReasoningOf(chunks)
  {
    if n == |chunks| {
      assert chunks[..n] == chunks;
    } else {
      var front := chunks[..|chunks| - 1];
      ContentPrefix(front, n);
      assert front[..n] == chunks[..n];
    }
  }

  // ── the loop's state ───────────────────────────────────────────

  function EmptySlot(): Slot {
    Slot("", "", "")
  }

  /** The slot of one index, empty if it has none. */
  function SlotAt(slots: map<int, Slot>, k: int): Slot {
    if k in slots then slots[k] else EmptySlot()
  }

  function AddTo(slots: map<int, Slot>, f: Fragment): map<int, Slot> {
    slots[f.index := Append(SlotAt(slots, f.index), f)]
  }

  ghost predicate SlotsMatch(slots: map<int, Slot>, fs: seq<Fragment>) {
    forall k :: SlotAt(slots, k) == JoinedSlot(OfIndex(fs, k))
  }

  /** tool_call_chunks after the fragments so far. */
  ghost predicate SlotsHold(slots: map<int, Slot>, fs: seq<Fragment>) {
    slots.Keys == Indices(fs) && SlotsMatch(slots, fs)
  }

  lemma AddToAt(slots: map<int, Slot>, f: Fragment, k: int)
    ensures SlotAt(AddTo(slots, f), k) == if k == f.index then Append(SlotAt(slots, k), f) else SlotAt(slots, k)
    ensures AddTo(slots, f).Keys == slots.Keys + {f.index}
  {
  }

  lemma OfIndexSnoc(fs: seq<Fragment>, f: Fragment, k: int)
    ensures OfIndex(fs + [f], k) == OfIndex(fs, k) + if f.index == k then [f] else []
    ensures JoinedSlot(fs + [f]) == Append(JoinedSlot(fs), f)
  {
    assert (fs + [f])[..|fs|] == fs;
  }

  lemma IndicesSnoc(fs: seq<Fragment>, f: Fragment)
    ensures Indices(fs + [f]) == Indices(fs) + {f.index}
  {
    var all := fs + [f];
    assert forall g :: g in all <==> g in fs || g == f;
    assert f in all;
  }

  lemma SlotStep(slots: map<int, Slot>, fs: seq<Fragment>, f: Fragment)
    requires SlotsHold(slots, fs)
    ensures SlotsHold(AddTo(slots, f), fs + [f])
  {
    IndicesSnoc(fs, f);
    AddToAt(slots, f, f.index);
    hide Indices, OfIndex, Append, JoinedSlot, SlotAt, AddTo;
    forall k ensures SlotAt(AddTo(slots, f), k) == JoinedSlot(OfIndex(fs + [f], k)) {
      AddToAt(slots, f, k);
      OfIndexSnoc(fs, f, k);
      OfIndexSnoc(OfIndex(fs, k), f, k);
      assert OfIndex(fs, k) + [] == OfIndex(fs, k);
    }
  }

  lemma StreamStep(chunks: seq<Chunk>, n: nat)
    requires n < |chunks|
    ensures AllFragments(chunks[..n + 1]) == AllFragments(chunks[..n]) + Fragments(ItemsOf(chunks[n]))
    ensures ContentOf(chunks[..n + 1]) == Cat(ContentOf(chunks[..n]), ContentPiece(chunks[n]))
    ensures ReasoningOf(chunks[..n + 1]) == Cat(ReasoningOf(chunks[..n]), ReasoningPiece(chunks[n]))
  {
    assert chunks[..n + 1][..n] == chunks[..n];
    hide Cat, Fragments, ItemsOf, ContentPiece, ReasoningPiece;
  }

  lemma ShownStep(shown: seq<Shown>, s: Shown)
    ensures ShownContent(shown + [s]) == Cat(ShownContent(shown), ContentText(s))
    ensures ShownThinking(shown + [s]) == Cat(ShownThinking(shown), ThinkingText(s))
  {
    assert (shown + [s])[..|shown|] == shown;
    hide Cat, ContentText, ThinkingText;
  }

  /** "".join(parts).strip() or None */
  function NonBlank(text: string): Option<string> {
    if Strip(text) == "" then None else Some(Strip(text))
  }

  /** A text is delivered stripped, and a blank one not at all. */
  predicate Delivered(text: string, field: Option<string>) {
    field == if Blank(text) then None else Some(Strip(text))
  }

  lemma NonBlankDelivered(text: string)
    ensures Delivered(text, NonBlank(text))
  {
    StripBlank(text);
  }

  // ── texts of a stream ──────────────────────────────────────────

  lemma TextSnoc(chunks: seq<Chunk>, c: Chunk)
    ensures ContentOf(chunks + [c]) == ContentOf(chunks) + if c.Delta? then c.content else ""
    ensures ReasoningOf(chunks + [c]) == ReasoningOf(chunks) + if c.Delta? then c.reasoning else ""
  {
    SnocFront(chunks, c);
  }

  lemma OneChunkText(c: Chunk)
    ensures ContentOf([c]) == (if c.Delta? then c.content else "") && ReasoningOf([c]) == (if c.Delta? then c.reasoning else "")
  {
    assert [c][..0] == [];
  }

  /** The text of a stream is that of its chunks, one after the other. */
  lemma {:induction false} TextsAdd(a: seq<Chunk>, b: seq<Chunk>)
    ensures ContentOf(a + b) == ContentOf(a) + ContentOf(b) && ReasoningOf(a + b) == ReasoningOf(a) + ReasoningOf(b)
  {
    if b == [] {
      assert a + b == a;
    } else {
      hide *;
      var front, last := b[..|b| - 1], b[|b| - 1];
      TextsAdd(a, front);
      FrontLast(b);
      Associative(a, front, [last]);
      TextSnoc(front, last);
      TextSnoc(a + front, last);
      Associative(ContentOf(a), ContentOf(front), if last.Delta? then last.content else "");
      Associative(ReasoningOf(a), ReasoningOf(front), if last.Delta? then last.reasoning else "");
    }
  }

  /** What is shown after one more piece. */
  lemma OneMoreShown(shown: seq<Shown>, s: Shown)
    ensures ShownContent([]) == ShownThinking([]) == ""
    ensures ShownContent(shown + [s]) == ShownContent(shown) + if s.Content? then s.text else ""
    ensures ShownThinking(shown + [s]) == ShownThinking(shown) + if s.Thinking? then s.text else ""
  {
    ShownStep(shown, s);
  }

  /** The slot of the fragment's index, created if missing, gets its non-empty fields appended. */
  method AddFragment(slots: map<int, Slot>, f: Fragment) returns (after: map<int, Slot>)
    ensures after == AddTo(slots, f)
  {
    var slot := SlotAt(slots, f.index);
    CatEmpty(slot.id);
    CatEmpty(slot.name);
    CatEmpty(slot.arguments);
    hide Cat;
    if f.id != "" {
      slot := slot.(id := Cat(slot.id, f.id));
    }
    if f.name != "" {
      slot := slot.(name := Cat(slot.name, f.name));
    }
    if f.arguments != "" {
      slot := slot.(arguments := Cat(slot.arguments, f.arguments));
    }
    after := slots[f.index := slot];
  }

  /** The loop over one chunk's fragments. */
  method AddFragments(slots: map<int, Slot>, keys: seq<int>, fs: seq<Fragment>, ghost before: seq<Fragment>)
    returns (after: map<int, Slot>, order: seq<int>)
    requires SlotsHold(slots, before) && Distinct(keys) && Elems(keys) == slots.Keys
    ensures SlotsHold(after, before + fs) && Distinct(order) && Elems(order) == after.Keys
  {
    after, order := slots, keys;
    assert before + fs[..0] == before;
    hide SlotsHold, AddTo, Distinct, Elems;
    for i := 0 to |fs|
      invariant SlotsHold(after, before + fs[..i]) && Distinct(order) && Elems(order) == after.Keys
    {
      assert before + fs[..i + 1] == before + fs[..i] + [fs[i]];
      SlotStep(after, before + fs[..i], fs[i]);
      AddToAt(after, fs[i], fs[i].index);
      DistinctSnoc(order, fs[i].index);
      if fs[i].index !in after {
        order := order + [fs[i].index];
      }
      after := AddFragment(after, fs[i]);
    }
    assert before + fs[..|fs|] == before + fs;
  }

  /** Shown after n chunks: the content before the first tool call, the reasoning up to its chunk. */
  ghost predicate ShownSoFar(shown: seq<Shown>, chunks: seq<Chunk>, n: nat)
    requires n <= |chunks|
  {
    var first, last := FirstToolChunk(chunks), ThinkingChunks(chunks);
    && ShownContent(shown) == ContentOf(chunks[..if n < first then n else first])
    && ShownThinking(shown) == ReasoningOf(chunks[..if n < last then n else last])
    && forall s :: s in shown ==> s.text != ""
  }

  function ThinkingPart(c: Chunk, seen: bool): seq<Shown> {
    if c.NoDelta? || seen || c.reasoning == "" then [] else [Thinking(c.reasoning)]
  }

  function ContentPart(c: Chunk, seen: bool): seq<Shown> {
    if c.NoDelta? || seen || c.items != [] || c.content == "" then [] else [Content(c.content)]
  }

  /** What one chunk adds to what is shown; a tool call in it does not hold back its own reasoning. */
  function ShownFor(c: Chunk, seen: bool): seq<Shown> {
    ThinkingPart(c, seen) + ContentPart(c, seen)
  }

  lemma ThinkingPartShown(shown: seq<Shown>, c: Chunk, seen: bool)
    ensures var all := shown + ThinkingPart(c, seen);
            && ShownContent(all) == ShownContent(shown)
            && ShownThinking(all) == Cat(ShownThinking(shown), if seen then "" else ReasoningPiece(c))
            && forall s :: s in all ==> s in shown || s.text != ""
  {
    hide ShownContent, ShownThinking, Cat;
    ThinkingShown(shown, ReasoningPiece(c), ThinkingPart(c, seen));
  }

  lemma ContentPartShown(shown: seq<Shown>, c: Chunk, seen: bool)
    ensures var all := shown + ContentPart(c, seen);
            && ShownContent(all) == Cat(ShownContent(shown), if seen || ItemsOf(c) != [] then "" else ContentPiece(c))
            && ShownThinking(all) == ShownThinking(shown)
            && forall s :: s in all ==> s in shown || s.text != ""
  {
    hide ShownContent, ShownThinking, Cat;
    ContentShown(shown, ContentPiece(c), ContentPart(c, seen));
  }

  lemma ShownForAdds(shown: seq<Shown>, c: Chunk, seen: bool)
    ensures var all := shown + ShownFor(c, seen);
            && ShownContent(all) == Cat(ShownContent(shown), if seen || ItemsOf(c) != [] then "" else ContentPiece(c))
            && ShownThinking(all) == Cat(ShownThinking(shown), if seen then "" else ReasoningPiece(c))
            && forall s :: s in all ==> s in shown || s.text != ""
  {
    hide ShownContent, ShownThinking, Cat, ThinkingPart, ContentPart, ContentPiece, ReasoningPiece;
    assert shown + ShownFor(c, seen) == shown + ThinkingPart(c, seen) + ContentPart(c, seen);
    ThinkingPartShown(shown, c, seen);
    ContentPartShown(shown + ThinkingPart(c, seen), c, seen);
  }

  lemma ThinkingShown(shown: seq<Shown>, text: string, a: seq<Shown>)
    requires a == [] || (a == [Thinking(text)] && text != "")
    ensures ShownContent(shown + a) == ShownContent(shown)
    ensures ShownThinking(shown + a) == Cat(ShownThinking(shown), if a == [] then "" else text)
  {
    ShownStep(shown, Thinking(text));
    CatEmpty(ShownContent(shown));
    CatEmpty(ShownThinking(shown));
    hide ShownContent, ShownThinking, Cat;
    assert shown + [] == shown;
  }

  lemma ContentShown(shown: seq<Shown>, text: string, b: seq<Shown>)
    requires b == [] || (b == [Content(text)] && text != "")
    ensures ShownContent(shown + b) == Cat(ShownContent(shown), if b == [] then "" else text)
    ensures ShownThinking(shown + b) == ShownThinking(shown)
  {
    ShownStep(shown, Content(text));
    CatEmpty(ShownContent(shown));
    CatEmpty(ShownThinking(shown));
    hide ShownContent, ShownThinking, Cat;
    assert shown + [] == shown;
  }

  /** The part of a stream up to a limit, one chunk on. */
  lemma PartStep(chunks: seq<Chunk>, n: nat, limit: nat)
    requires n < |chunks| && limit <= |chunks|
    ensures var now, after := chunks[..if n < limit then n else limit], chunks[..if n + 1 < limit then n + 1 else limit];
            && ContentOf(after) == Cat(ContentOf(now), if n < limit then ContentPiece(chunks[n]) else "")
            && ReasoningOf(after) == Cat(ReasoningOf(now), if n < limit then ReasoningPiece(chunks[n]) else "")
  {
    StreamStep(chunks, n);
    hide ContentOf, ReasoningOf, AllFragments, Fragments;
    CatEmpty(ContentOf(chunks[..limit]));
    CatEmpty(ReasoningOf(chunks[..limit]));
    hide Cat, ContentPiece, ReasoningPiece;
  }

  lemma FirstStep(chunks: seq<Chunk>, n: nat)
    requires n < |chunks|
    ensures FirstToolChunk(chunks) < n + 1 <==> FirstToolChunk(chunks) < n || ItemsOf(chunks[n]) != []
    ensures n < FirstToolChunk(chunks) <==> FirstToolChunk(chunks) >= n && ItemsOf(chunks[n]) == []
    ensures n < ThinkingChunks(chunks) <==> FirstToolChunk(chunks) >= n
  {
    FirstToolChunkSpec(chunks);
  }

  lemma ShowStep(shown: seq<Shown>, chunks: seq<Chunk>, n: nat)
    requires n < |chunks| && ShownSoFar(shown, chunks, n)
    ensures FirstToolChunk(chunks) < n + 1 <==> FirstToolChunk(chunks) < n || ItemsOf(chunks[n]) != []
    ensures ShownSoFar(shown + ShownFor(chunks[n], FirstToolChunk(chunks) < n), chunks, n + 1)
  {
    FirstStep(chunks, n);
    PartStep(chunks, n, FirstToolChunk(chunks));
    PartStep(chunks, n, ThinkingChunks(chunks));
    ShownForAdds(shown, chunks[n], FirstToolChunk(chunks) < n);
    hide ShownContent, ShownThinking, ContentOf, ReasoningOf, ShownFor, FirstToolChunk, ThinkingChunks, Cat;
  }

  lemma {:induction false} NoFragmentsIff(chunks: seq<Chunk>)
    ensures AllFragments(chunks) == [] <==> NoItems(chunks)
  {
    if chunks != [] {
      hide *;
      var front, last := chunks[..|chunks| - 1], chunks[|chunks| - 1];
      NoFragmentsIff(front);
      FragmentsAdd(chunks);
      NoItemsStep(chunks);
    }
  }

  predicate NoItems(chunks: seq<Chunk>) {
    forall i :: 0 <= i < |chunks| ==> ItemsOf(chunks[i]) == []
  }

  lemma NoItemsStep(chunks: seq<Chunk>)
    requires chunks != []
    ensures NoItems(chunks) <==> ItemsOf(chunks[|chunks| - 1]) == [] && NoItems(chunks[..|chunks| - 1])
  {
    hide ItemsOf;
    var front := chunks[..|chunks| - 1];
    assert forall i :: 0 <= i < |front| ==> front[i] == chunks[i];
  }

  lemma FragmentsAdd(chunks: seq<Chunk>)
    requires chunks != []
    ensures |AllFragments(chunks)| == |AllFragments(chunks[..|chunks| - 1])| + |ItemsOf(chunks[|chunks| - 1])|
  {
    hide ItemsOf;
  }

  lemma StreamEnds(chunks: seq<Chunk>, shown: seq<Shown>)
    requires ShownSoFar(shown, chunks, |chunks|)
    ensures ShownContent(shown) == ContentOf(chunks[..FirstToolChunk(chunks)]) && ShownContent(shown) <= ContentOf(chunks)
    ensures ShownThinking(shown) == ReasoningOf(chunks[..ThinkingChunks(chunks)]) && ShownThinking(shown) <= ReasoningOf(chunks)
    ensures AllFragments(chunks) == [] <==> FirstToolChunk(chunks) == |chunks|
    ensures AllFragments(chunks) == [] ==> ShownContent(shown) == ContentOf(chunks) && ShownThinking(shown) == ReasoningOf(chunks)
  {
    ContentPrefix(chunks, FirstToolChunk(chunks));
    ContentPrefix(chunks, ThinkingChunks(chunks));
    NoFragmentsIff(chunks);
    FirstToolChunkSpec(chunks);
    assert chunks[..|chunks|] == chunks;
    hide ShownContent, ShownThinking, ContentOf, ReasoningOf, AllFragments, ItemsOf;
  }

  lemma StreamStarts(chunks: seq<Chunk>)
    ensures ContentOf(chunks[..0]) == "" && ReasoningOf(chunks[..0]) == "" && AllFragments(chunks[..0]) == []
    ensures SlotsHold(map[], []) && Distinct([]) && Elems([]) == {} && ShownSoFar([], chunks, 0)
  {
  }

  /** The loop body for one chunk. */
  method AddChunk(c: Chunk, content: string, reasoning: string, slots: map<int, Slot>, keys: seq<int>, seen: bool, shown: seq<Shown>,
                  ghost before: seq<Fragment>)
    returns (content': string, reasoning': string, slots': map<int, Slot>, keys': seq<int>, seen': bool, shown': seq<Shown>)
    requires SlotsHold(slots, before) && Distinct(keys) && Elems(keys) == slots.Keys
    ensures content' == Cat(content, ContentPiece(c))
    ensures reasoning' == Cat(reasoning, ReasoningPiece(c))
    ensures SlotsHold(slots', before + Fragments(ItemsOf(c))) && Distinct(keys') && Elems(keys') == slots'.Keys
    ensures seen' == (seen || ItemsOf(c) != []) && shown' == shown + ShownFor(c, seen)
  {
    content', reasoning', slots', keys', seen', shown' := content, reasoning, slots, keys, seen, shown;
    CatEmpty(content);
    CatEmpty(reasoning);
    hide SlotsHold, Distinct, Elems, Cat;
    if c.NoDelta? {
      assert before + Fragments([]) == before;
      return;
    }
    if c.reasoning != "" {
      reasoning' := Cat(reasoning, c.reasoning);
      if !seen' {
        shown' := shown + [Thinking(c.reasoning)];
      }
    }
    if c.items != [] {
      seen' := true;
    }
    slots', keys' := AddFragments(slots, keys, Fragments(c.items), before);
    if c.content != "" {
      content' := Cat(content, c.content);
      if !seen' {
        shown' := shown' + [Content(c.content)];
      }
    }
  }

  lemma SortedDistinct(keys: seq<int>, order: seq<int>)
    requires Distinct(keys) && multiset(order) == multiset(keys) && Ascending(order, (k: int) => k)
    ensures Increasing(order) && Elems(order) == Elems(keys)
  {
    SameElements(order, keys);
    DistinctMultiset(keys);
    forall i, j | 0 <= i < j < |order| ensures order[i] < order[j] {
      assert order[i] <= order[j];
      if order[i] == order[j] {
        TwiceInMultiset(order, i, j);
      }
    }
  }

  lemma {:induction false} DistinctMultiset(s: seq<int>)
    requires Distinct(s)
    ensures forall k :: multiset(s)[k] <= 1
  {
    if s != [] {
      var front, last := s[..|s| - 1], s[|s| - 1];
      DistinctMultiset(front);
      assert s == front + [last];
      assert last !in front;
      assert multiset(front)[last] == 0;
    }
  }

  lemma TwiceInMultiset(s: seq<int>, i: nat, j: nat)
    requires i < j < |s| && s[i] == s[j]
    ensures multiset(s)[s[i]] >= 2
  {
    assert s == s[..j] + [s[j]] + s[j + 1..];
    assert s[i] in s[..j];
    assert s[i] in multiset(s[..j]);
  }

  /** sorted(tool_call_chunks) */
  method SortedKeys(keys: seq<int>) returns (order: seq<int>)
    requires Distinct(keys)
    ensures Increasing(order) && Elems(order) == Elems(keys)
  {
    SortBySpec(keys, (k: int) => k);
    order := SortBy(keys, (k: int) => k);
    SortedDistinct(keys, order);
  }

  /** The loop over the sorted indices. */
  method CollectCalls(slots: map<int, Slot>, order: seq<int>, json: string -> bool) returns (ok: bool, calls: seq<ToolCall>)
    requires forall j :: 0 <= j < |order| ==> order[j] in slots
    ensures ok <==> forall j :: 0 <= j < |order| ==> json(CallOf(slots[order[j]]).rawArguments)
    ensures ok ==> |calls| == |order| && forall j :: 0 <= j < |order| ==> calls[j] == CallOf(slots[order[j]])
  {
    calls := [];
    hide CallOf;
    for i := 0 to |order|
      invariant |calls| == i && forall j :: 0 <= j < i ==> calls[j] == CallOf(slots[order[j]])
      invariant forall j :: 0 <= j < i ==> json(CallOf(slots[order[j]]).rawArguments)
    {
      var call := CallOf(slots[order[i]]);
      if !json(call.rawArguments) {
        return false, [];
      }
      calls := calls + [call];
    }
    return true, calls;
  }

  /** Every call's arguments parse. */
  ghost predicate AllJson(fs: seq<Fragment>, json: string -> bool) {
    forall k :: k in Indices(fs) ==> json(ArgumentsText(fs, k))
  }

  method Assemble(slots: map<int, Slot>, keys: seq<int>, json: string -> bool, ghost fs: seq<Fragment>)
    returns (ok: bool, calls: seq<ToolCall>)
    requires SlotsHold(slots, fs) && Distinct(keys) && Elems(keys) == slots.Keys
    ensures ok <==> AllJson(fs, json)
    ensures ok ==> exists order :: IsAssembly(fs, order, calls)
    ensures ok ==> (|calls| == 0 <==> |fs| == 0)
  {
    var order := SortedKeys(keys);
    hide *;
    SlotsAre(slots, fs, order);
    NoIndicesIff(fs, order);
    ok, calls := CollectCalls(slots, order, json);
    AllJsonByOrder(fs, order, json);
    if ok {
      Assembled(fs, order, calls);
    }
  }

  lemma AllJsonByOrder(fs: seq<Fragment>, order: seq<int>, json: string -> bool)
    requires Elems(order) == Indices(fs)
    ensures AllJson(fs, json) <==> forall j :: 0 <= j < |order| ==> json(CallFor(fs, order[j]).rawArguments)
  {
    hide CallFor, Indices, ArgumentsText;
    forall k | k in Elems(order) ensures k in order && CallFor(fs, k).rawArguments == ArgumentsText(fs, k) {
      CallForIs(fs, k);
    }
    assert forall j :: 0 <= j < |order| ==> order[j] in Elems(order);
  }

  lemma Assembled(fs: seq<Fragment>, order: seq<int>, calls: seq<ToolCall>)
    requires Increasing(order) && Elems(order) == Indices(fs) && |calls| == |order|
    requires forall j :: 0 <= j < |order| ==> calls[j] == CallFor(fs, order[j])
    ensures IsAssembly(fs, order, calls)
  {
    hide CallFor, FieldText;
    forall j | 0 <= j < |order|
      ensures calls[j] == ToolCall(FieldText(fs, order[j], Id), FieldText(fs, order[j], Name), ArgumentsText(fs, order[j]))
    {
      CallForIs(fs, order[j]);
    }
  }

  lemma SlotsAre(slots: map<int, Slot>, fs: seq<Fragment>, order: seq<int>)
    requires SlotsHold(slots, fs) && Elems(order) == slots.Keys
    ensures Elems(order) == Indices(fs)
    ensures forall j :: 0 <= j < |order| ==> order[j] in slots && CallOf(slots[order[j]]) == CallFor(fs, order[j])
  {
    hide OfIndex, JoinedSlot;
    assert forall j :: 0 <= j < |order| ==> order[j] in Elems(order);
    assert forall j :: 0 <= j < |order| ==> SlotAt(slots, order[j]) == JoinedSlot(OfIndex(fs, order[j]));
  }

  lemma NoIndicesIff(fs: seq<Fragment>, order: seq<int>)
    requires Elems(order) == Indices(fs)
    ensures |order| == 0 <==> |fs| == 0
  {
    assert |order| > 0 ==> order[0] in Elems(order);
    assert |fs| > 0 ==> fs[0].index in Indices(fs);
    assert |order| == 0 ==> Elems(order) == {};
    assert |fs| == 0 ==> Indices(fs) == {};
  }

  /**
   The accumulation loop.  What was shown of the content is exactly that of the chunks before the
   first tool call, hence a prefix of the full content and all of it if no tool call arrived, and
   nothing empty is shown; this holds whether or not the reply is delivered in the end, which it is
   if and only if the arguments of every call are JSON.  Its calls are the assembly of all fragments.
   */
  method ChatStreaming(chunks: seq<Chunk>, json: string -> bool) returns (r: Option<Response>, shown: seq<Shown>)
    ensures r.Some? <==> AllJson(AllFragments(chunks), json)
    ensures r.Some? ==> exists order :: IsAssembly(AllFragments(chunks), order, r.value.calls)
    ensures r.Some? ==> (r.value.calls == [] <==> FirstToolChunk(chunks) == |chunks|)
    ensures r.Some? ==> Delivered(ContentOf(chunks), r.value.content) && Delivered(ReasoningOf(chunks), r.value.thinking)
    ensures ShownContent(shown) == ContentOf(chunks[..FirstToolChunk(chunks)]) && ShownContent(shown) <= ContentOf(chunks)
    ensures ShownThinking(shown) == ReasoningOf(chunks[..ThinkingChunks(chunks)]) && ShownThinking(shown) <= ReasoningOf(chunks)
    ensures FirstToolChunk(chunks) == |chunks| ==>
              ShownContent(shown) == ContentOf(chunks) && ShownThinking(shown) == ReasoningOf(chunks)
    ensures forall s :: s in shown ==> s.text != ""
  {
    var content, reasoning, toolCallSeen := "", "", false;
    var slots: map<int, Slot>, keys: seq<int> := map[], [];
    shown := [];
    StreamStarts(chunks);
    hide Cat, ContentPiece, ReasoningPiece, ContentOf, ReasoningOf, SlotsHold, AllFragments, Distinct, Elems,
         FirstToolChunk, Fragments, NonBlank, ShownContent, ShownThinking, IsAssembly, ShownFor, AllJson, Delivered;
    for n := 0 to |chunks|
      invariant content == ContentOf(chunks[..n]) && reasoning == ReasoningOf(chunks[..n])
      invariant SlotsHold(slots, AllFragments(chunks[..n])) && Distinct(keys) && Elems(keys) == slots.Keys
      invariant (toolCallSeen <==> FirstToolChunk(chunks) < n) && ShownSoFar(shown, chunks, n)
    {
      StreamStep(chunks, n);
      ShowStep(shown, chunks, n);
      content, reasoning, slots, keys, toolCallSeen, shown :=
        AddChunk(chunks[n], content, reasoning, slots, keys, toolCallSeen, shown, AllFragments(chunks[..n]));
    }
    assert chunks[..|chunks|] == chunks;
    StreamEnds(chunks, shown);
    var ok, calls := Assemble(slots, keys, json, AllFragments(chunks));
    if !ok {
      return None, shown;
    }
    NonBlankDelivered(content);
    NonBlankDelivered(reasoning);
    r := Some(Response(NonBlank(content), NonBlank(reasoning), calls));
  }
}
