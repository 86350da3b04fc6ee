/**
 The line scanner of doc_rag/chunker.py.  It follows the code's own rules: every line starting
 with ``` toggles the fence, and outside fences a # opens a heading as soon as text follows it.
 */
module ParseBlocks {
  import opened Text
  import opened ChunkText

  datatype Kind = CodeBlock | Table | List | Heading | Paragraph
  datatype Block = Block(heading: string, text: Located, kind: Kind, start: nat, end: nat)

  // ── what a line is ─────────────────────────────────────────────

  predicate BlankLine(l: Located) {
    Blank(Chars(l))
  }

  predicate IsFence(l: Located) {
    "```" <= Strip(Chars(l))
  }

  /** The length of the run of # at the start. */
  function Hashes(s: string): (n: nat)
    ensures n <= |s| && (forall i :: 0 <= i < n ==> s[i] == '#') && (n < |s| ==> s[n] != '#')
  {
    if s != "" && s[0] == '#' then 1 + Hashes(s[1..]) else 0
  }

  datatype Title = Title(level: nat, text: string)

  function TitleOf(l: Located): Title {
    var s := Strip(Chars(l));
    Title(Hashes(s), Strip(s[Hashes(s)..]))
  }

  predicate IsHeading(l: Located) {
    TitleOf(l).level > 0 && TitleOf(l).text != ""
  }

  // ── where a line stands ────────────────────────────────────────

  /** An odd number of fences among the first n lines. */
  predicate InCode(lines: seq<Located>, n: nat)
    requires n <= |lines|
  {
    n > 0 && (InCode(lines, n - 1) != IsFence(lines[n - 1]))
  }

  /** All headings among the first n lines. */
  function Titles(lines: seq<Located>, n: nat): seq<Title>
    requires n <= |lines|
  {
    if n == 0 then []
    else
      var l := lines[n - 1];
      Titles(lines, n - 1) + if !InCode(lines, n - 1) && !IsFence(l) && IsHeading(l) then [TitleOf(l)] else []
  }

  /** The headings not closed by a later heading of equal or lower level. */
  function Open(ts: seq<Title>): seq<Title> {
    if ts == [] then [] else FirstOpen(ts) + Open(ts[1..])
  }

  function FirstOpen(ts: seq<Title>): seq<Title>
    requires ts != []
  {
    if forall i :: 0 < i < |ts| ==> ts[0].level < ts[i].level then [ts[0]] else []
  }

  function Path(ts: seq<Title>, title: string): string {
    var p := JoinTitles(ts);
    if p == "" then title else p
  }

  function JoinTitles(ts: seq<Title>): string {
    if ts == [] then ""
    else if |ts| == 1 then ts[0].text
    else JoinTitles(ts[..|ts| - 1]) + " > " + ts[|ts| - 1].text
  }

  /** The path of nested headings: their texts with an arrow between any two. */
  lemma {:induction false} PathsJoin(a: seq<Title>, b: seq<Title>)
    requires a != [] && b != []
    ensures JoinTitles(a + b) == JoinTitles(a) + " > " + JoinTitles(b)
    ensures |b| == 1 ==> JoinTitles(b) == b[0].text
  {
    var front, last := b[..|b| - 1], b[|b| - 1];
    FrontLast(b);
    Associative(a, front, [last]);
    SnocFront(a + front, last);
    if front == [] {
      assert a + [] == a;
    } else {
      PathsJoin(a, front);
      hide JoinTitles;
      assert JoinTitles(a) + " > " + JoinTitles(front) + " > " + last.text
          == JoinTitles(a) + " > " + (JoinTitles(front) + " > " + last.text);
    }
  }

  /** The heading path in force after n lines. */
  function PathAt(lines: seq<Located>, title: string, n: nat): string
    requires n <= |lines|
  {
    Path(Open(Titles(lines, n)), title)
  }

  // ── the heading stack ──────────────────────────────────────────

  /** [(lvl, val) for lvl, val in headings if lvl < level] */
  function Lower(ts: seq<Title>, level: nat): seq<Title> {
    if ts == [] then [] else (if ts[0].level < level then [ts[0]] else []) + Lower(ts[1..], level)
  }

  lemma {:induction false} LowerAdd(a: seq<Title>, b: seq<Title>, level: nat)
    ensures Lower(a + b, level) == Lower(a, level) + Lower(b, level)
  {
    if a == [] {
      assert a + b == b;
    } else {
      assert (a + b)[1..] == a[1..] + b;
      LowerAdd(a[1..], b, level);
    }
  }

  lemma FirstOpenSnoc(ts: seq<Title>, t: Title)
    requires ts != []
    ensures FirstOpen(ts + [t]) == Lower(FirstOpen(ts), t.level)
  {
    var all := ts + [t];
    assert forall i :: 0 < i < |ts| ==> all[i] == ts[i];
    assert all[|ts|] == t;
  }

  /** One step of the code's stack keeps it equal to the open headings. */
  lemma {:induction false} OpenStep(ts: seq<Title>, t: Title)
    ensures Open(ts + [t]) == Lower(Open(ts), t.level) + [t]
  {
    var all := ts + [t];
    if ts == [] {
      assert all == [t] && all[1..] == [];
    } else {
      assert all[1..] == ts[1..] + [t];
      OpenStep(ts[1..], t);
      FirstOpenSnoc(ts, t);
      LowerAdd(FirstOpen(ts), Open(ts[1..]), t.level);
    }
  }

  ghost predicate StrictlyIncreasing(ts: seq<Title>) {
    forall i, j :: 0 <= i < j < |ts| ==> ts[i].level < ts[j].level
  }

  lemma {:induction false} OpenMembers(ts: seq<Title>)
    ensures forall t :: t in Open(ts) ==> t in ts
  {
    if ts != [] {
      OpenMembers(ts[1..]);
    }
  }

  /** The stack always has strictly increasing levels. */
  lemma {:induction false} OpenIncreases(ts: seq<Title>)
    ensures StrictlyIncreasing(Open(ts))
  {
    if ts != [] {
      OpenIncreases(ts[1..]);
      OpenMembers(ts[1..]);
      assert forall t :: t in ts[1..] ==> exists i :: 0 < i < |ts| && ts[i] == t;
      var o := Open(ts[1..]);
      assert forall i :: 0 <= i < |o| ==> o[i] in ts[1..];
    }
  }

  lemma {:induction false} TitlesAreTexts(lines: seq<Located>, n: nat)
    requires n <= |lines|
    ensures forall t :: t in Titles(lines, n) ==> t.level > 0 && t.text != ""
  {
    if n > 0 {
      TitlesAreTexts(lines, n - 1);
    }
  }

  /** Where no heading is open the path is the document's title; elsewhere it is made of the open headings. */
  lemma PathIs(lines: seq<Located>, title: string, n: nat)
    requires n <= |lines|
    ensures var open := Open(Titles(lines, n)); PathAt(lines, title, n) == if open == [] then title else JoinTitles(open)
  {
    var open := Open(Titles(lines, n));
    TitlesAreTexts(lines, n);
    OpenMembers(Titles(lines, n));
    if open != [] {
      var last := open[|open| - 1];
      assert last in open;
      assert |open| == 1 ==> JoinTitles(open) == last.text;
    }
  }

  /** No later heading has an equal or lower level. */
  predicate Unclosed(ts: seq<Title>, k: nat)
    requires k < |ts|
  {
    forall i :: k < i < |ts| ==> ts[k].level < ts[i].level
  }

  lemma UnclosedRest(ts: seq<Title>, k: nat)
    requires 0 < k < |ts|
    ensures Unclosed(ts, k) <==> Unclosed(ts[1..], k - 1)
  {
    var rest := ts[1..];
    assert forall i :: 0 < i < |ts| ==> rest[i - 1] == ts[i];
    if Unclosed(rest, k - 1) {
      forall i | k < i < |ts| ensures ts[k].level < ts[i].level {
        assert rest[k - 1].level < rest[i - 1].level;
      }
    }
  }

  /** The stack holds a heading if and only if it is one that no later heading has closed. */
  lemma {:induction false} OpenIff(ts: seq<Title>, t: Title)
    ensures t in Open(ts) <==> exists k: nat :: k < |ts| && ts[k] == t && Unclosed(ts, k)
  {
    if ts != [] {
      var rest := ts[1..];
      OpenIff(rest, t);
      assert FirstOpen(ts) == if Unclosed(ts, 0) then [ts[0]] else [];
      hide Unclosed, FirstOpen;
      if t in Open(rest) {
        var k: nat :| k < |rest| && rest[k] == t && Unclosed(rest, k);
        UnclosedRest(ts, k + 1);
        assert ts[k + 1] == t && Unclosed(ts, k + 1);
      }
      forall k: nat | 0 < k < |ts| && ts[k] == t && Unclosed(ts, k) ensures t in Open(rest) {
        UnclosedRest(ts, k);
        assert rest[k - 1] == t && Unclosed(rest, k - 1);
      }
    }
  }

  // ── what the blocks are ────────────────────────────────────────

  function LastEnd(blocks: seq<Block>): nat {
    if blocks == [] then 0 else blocks[|blocks| - 1].end
  }

  predicate BlankBetween(lines: seq<Located>, a: nat, b: nat) {
    forall i :: a <= i < b && i < |lines| ==> BlankLine(lines[i])
  }

  /** A line that ends the text before it. */
  predicate Breaks(l: Located) {
    BlankLine(l) || IsFence(l) || IsHeading(l)
  }

  /** Lines start..n are text: visible, unfenced, and headed by no more than the first. */
  predicate TextLines(lines: seq<Located>, start: nat, n: nat)
    requires 1 <= start <= n <= |lines|
  {
    !BlankLine(lines[start - 1]) && !IsFence(lines[start - 1]) && forall i :: start <= i < n ==> !Breaks(lines[i])
  }

  /** Lines start..n are a fence and lines inside it. */
  predicate CodeLines(lines: seq<Located>, start: nat, n: nat)
    requires 1 <= start <= n <= |lines|
  {
    IsFence(lines[start - 1]) && forall i :: start <= i < n ==> !IsFence(lines[i])
  }

  /**
   How far a block goes: from a fence to the next one, or to the end of the document; text to the
   line before a blank one, a fence, a heading, or the end.
   */
  predicate ExtentOk(lines: seq<Located>, start: nat, end: nat)
    requires 1 <= start <= end <= |lines|
  {
    if IsFence(lines[start - 1]) then
      if end > start && IsFence(lines[end - 1]) then CodeLines(lines, start, end - 1)
      else CodeLines(lines, start, end) && end == |lines|
    else TextLines(lines, start, end) && (end == |lines| || Breaks(lines[end]))
  }

  /** A block is its own lines joined (stripped, outside fences) under the path in force on all of them. */
  ghost predicate BlockOk(lines: seq<Located>, title: string, b: Block) {
    && 1 <= b.start <= b.end <= |lines|
    && (forall l :: b.start <= l <= b.end ==> b.heading == PathAt(lines, title, l))
    && b.text == (if IsFence(lines[b.start - 1]) then Join(lines[b.start - 1..b.end], [NL])
                  else StripText(Join(lines[b.start - 1..b.end], [NL])))
    && b.kind == (if IsFence(lines[b.start - 1]) then CodeBlock else Classify(b.text))
    && ExtentOk(lines, b.start, b.end)
  }

  /** The blocks lie one after the other, and only blank lines lie between them. */
  ghost predicate Laid(lines: seq<Located>, title: string, blocks: seq<Block>) {
    blocks == [] ||
    (var front, last := blocks[..|blocks| - 1], blocks[|blocks| - 1];
     && Laid(lines, title, front)
     && BlockOk(lines, title, last)
     && LastEnd(front) < last.start && BlankBetween(lines, LastEnd(front), last.start - 1))
  }

  lemma LaidSnoc(lines: seq<Located>, title: string, blocks: seq<Block>, b: Block)
    requires Laid(lines, title, blocks) && BlockOk(lines, title, b)
    requires LastEnd(blocks) < b.start && BlankBetween(lines, LastEnd(blocks), b.start - 1)
    ensures Laid(lines, title, blocks + [b]) && LastEnd(blocks + [b]) == b.end
  {
    assert (blocks + [b])[..|blocks|] == blocks;
  }

  // ── the code ───────────────────────────────────────────────────

  /** Every line of a text starts with one of the marks once the given side is stripped. */
  predicate AllStart(lines: seq<Located>, marks: string) {
    forall i :: 0 <= i < |lines| && !BlankLine(lines[i]) ==>
      var s := LStrip(Chars(lines[i])); s != "" && s[0] in marks
  }

  function Classify(t: Located): Kind {
    var lines := SplitLines(t);
    var nonEmpty := exists i :: 0 <= i < |lines| && !BlankLine(lines[i]);
    if "```" <= Chars(t) then CodeBlock
    else if nonEmpty && AllStart(lines, "|") then Table
    else if nonEmpty && AllStart(lines, "-*+") then List
    else if "#" <= Chars(t) then Heading
    else Paragraph
  }

  /** The first visible character of a line is one of the marks. */
  predicate Opens(l: Located, marks: string) {
    exists j :: 0 <= j < |l| && l[j].c in marks && !IsSpace(l[j].c) && forall k :: 0 <= k < j ==> IsSpace(l[k].c)
  }

  /** There are visible lines, and each opens with one of the marks. */
  predicate AllOpen(lines: seq<Located>, marks: string) {
    && (exists i :: 0 <= i < |lines| && !BlankLine(lines[i]))
    && (forall i :: 0 <= i < |lines| && !BlankLine(lines[i]) ==> Opens(lines[i], marks))
  }

  lemma OpensIff(l: Located, marks: string)
    requires !BlankLine(l)
    ensures var s := LStrip(Chars(l)); s != "" && (s[0] in marks <==> Opens(l, marks))
  {
    var t := Chars(l);
    var s := LStrip(t);
    LStripSpec(t);
    LStripBlank(t);
    var j := |t| - |s|;
    assert s[0] == t[j] == l[j].c && !IsSpace(l[j].c);
    assert forall k :: 0 <= k < j ==> t[..j][k] == l[k].c;
  }

  /** What a text is taken for, by the first visible character of each of its lines. */
  lemma KindIs(t: Located)
    ensures Classify(t) == if "```" <= Chars(t) then CodeBlock
                           else if AllOpen(SplitLines(t), "|") then Table
                           else if AllOpen(SplitLines(t), "-*+") then List
                           else if "#" <= Chars(t) then Heading
                           else Paragraph
  {
    var lines := SplitLines(t);
    hide SplitLines, BlankLine, Opens, LStrip;
    forall i | 0 <= i < |lines| && !BlankLine(lines[i])
      ensures var s := LStrip(Chars(lines[i]));
              s != "" && (s[0] in "|" <==> Opens(lines[i], "|")) && (s[0] in "-*+" <==> Opens(lines[i], "-*+"))
    {
      OpensIff(lines[i], "|");
      OpensIff(lines[i], "-*+");
    }
    assert AllStart(lines, "|") <==> forall i :: 0 <= i < |lines| && !BlankLine(lines[i]) ==> Opens(lines[i], "|");
    assert AllStart(lines, "-*+") <==> forall i :: 0 <= i < |lines| && !BlankLine(lines[i]) ==> Opens(lines[i], "-*+");
  }

  /** flush_pending without its resets. */
  function FlushPending(blocks: seq<Block>, path: string, pending: seq<Located>, start: nat, end: nat): seq<Block> {
    var text := StripText(Join(pending, [NL]));
    if text == [] then blocks else blocks + [Block(path, text, Classify(text), start, end)]
  }

  /** The scanner's variables. */
  datatype Scan = Scan(blocks: seq<Block>, headings: seq<Title>, pending: seq<Located>, pendingStart: nat,
                       inCode: bool, codeLines: seq<Located>, codeStart: nat)

  /** Lines start..n are held; only blank lines lie before them, and the path has not changed since. */
  ghost predicate Holds(lines: seq<Located>, blocks: seq<Block>, held: seq<Located>, start: nat, n: nat)
    requires n <= |lines|
  {
    && LastEnd(blocks) < start <= n && held == lines[start - 1..n]
    && BlankBetween(lines, LastEnd(blocks), start - 1)
    && (forall l :: start <= l <= n ==> Open(Titles(lines, l)) == Open(Titles(lines, n)))
  }

  /** Between the blocks made and line n there are blank lines, then what is being held. */
  ghost predicate ScanOk(lines: seq<Located>, title: string, s: Scan, n: nat)
    requires n <= |lines|
  {
    && s.inCode == InCode(lines, n) && s.headings == Open(Titles(lines, n))
    && Laid(lines, title, s.blocks) && LastEnd(s.blocks) <= n
    && if s.inCode then
         s.pending == [] && Holds(lines, s.blocks, s.codeLines, s.codeStart, n) && CodeLines(lines, s.codeStart, n)
       else if s.pending == [] then BlankBetween(lines, LastEnd(s.blocks), n)
       else Holds(lines, s.blocks, s.pending, s.pendingStart, n)
            && TextLines(lines, s.pendingStart, n) && !BlankLine(s.pending[0])
  }

  lemma BlankStep(lines: seq<Located>, a: nat, n: nat)
    requires n < |lines| && BlankBetween(lines, a, n) && BlankLine(lines[n])
    ensures BlankBetween(lines, a, n + 1)
  {
  }

  lemma HeldTextVisible(held: seq<Located>)
    ensures StripText(Join([], [NL])) == []
    ensures held != [] && !BlankLine(held[0]) ==> StripText(Join(held, [NL])) != []
  {
    StripTextEmptyIff(Join([], [NL]));
    if held != [] && !BlankLine(held[0]) {
      StripTextEmptyIff(held[0]);
      StripTextEmptyIff(Join(held, [NL]));
      JoinHolds(held, [NL], 0);
    }
  }

  lemma TextEndOk(lines: seq<Located>, title: string, blocks: seq<Block>, held: seq<Located>, start: nat, n: nat)
    requires 0 < n <= |lines| && Laid(lines, title, blocks) && Holds(lines, blocks, held, start, n)
    requires TextLines(lines, start, n) && (n == |lines| || Breaks(lines[n]))
    ensures var text := StripText(Join(held, [NL]));
            var b := Block(Path(Open(Titles(lines, n)), title), text, Classify(text), start, n);
            Laid(lines, title, blocks + [b]) && LastEnd(blocks + [b]) == n
  {
    hide Laid, StripText, Join, Classify, Open, Titles, IsFence;
    var text := StripText(Join(held, [NL]));
    LaidSnoc(lines, title, blocks, Block(Path(Open(Titles(lines, n)), title), text, Classify(text), start, n));
  }

  /** After flush_pending everything up to line n is in blocks or blank. */
  lemma FlushOk(lines: seq<Located>, title: string, s: Scan, n: nat)
    requires n <= |lines| && ScanOk(lines, title, s, n) && !s.inCode && (n == |lines| || Breaks(lines[n]))
    ensures var blocks := FlushPending(s.blocks, Path(s.headings, title), s.pending, s.pendingStart, n);
            Laid(lines, title, blocks) && LastEnd(blocks) <= n && BlankBetween(lines, LastEnd(blocks), n)
  {
    hide StripText, Join, Classify, Open, Titles, IsFence, Laid;
    HeldTextVisible(s.pending);
    if s.pending != [] {
      TextEndOk(lines, title, s.blocks, s.pending, s.pendingStart, n);
    }
  }

  lemma HoldsGrows(lines: seq<Located>, blocks: seq<Block>, held: seq<Located>, start: nat, n: nat)
    requires n < |lines| && Holds(lines, blocks, held, start, n)
    requires Open(Titles(lines, n + 1)) == Open(Titles(lines, n))
    ensures Holds(lines, blocks, held + [lines[n]], start, n + 1)
  {
    hide BlankBetween, Open, Titles;
  }

  lemma HoldsStarts(lines: seq<Located>, blocks: seq<Block>, n: nat)
    requires n < |lines| && LastEnd(blocks) <= n && BlankBetween(lines, LastEnd(blocks), n)
    ensures Holds(lines, blocks, [lines[n]], n + 1, n + 1)
  {
    hide Open, Titles;
  }

  /** A line that is no heading outside code leaves the stack alone. */
  lemma NoHeadingStep(lines: seq<Located>, n: nat)
    requires n < |lines| && (InCode(lines, n) || IsFence(lines[n]) || !IsHeading(lines[n]))
    ensures Titles(lines, n + 1) == Titles(lines, n)
  {
  }

  lemma CodeEndOk(lines: seq<Located>, title: string, blocks: seq<Block>, held: seq<Located>, start: nat, n: nat)
    requires 0 < n <= |lines| && Laid(lines, title, blocks) && Holds(lines, blocks, held, start, n)
    requires IsFence(lines[start - 1]) && ExtentOk(lines, start, n)
    ensures var b := Block(Path(Open(Titles(lines, n)), title), Join(held, [NL]), CodeBlock, start, n);
            Laid(lines, title, blocks + [b]) && LastEnd(blocks + [b]) == n
  {
    LaidSnoc(lines, title, blocks, Block(Path(Open(Titles(lines, n)), title), Join(held, [NL]), CodeBlock, start, n));
  }

  // ── one line at a time ─────────────────────────────────────────

  lemma FenceCloses(lines: seq<Located>, title: string, s: Scan, n: nat)
    requires n < |lines| && ScanOk(lines, title, s, n) && s.inCode && IsFence(lines[n])
    ensures var b := Block(Path(s.headings, title), Join(s.codeLines + [lines[n]], [NL]), CodeBlock, s.codeStart, n + 1);
            ScanOk(lines, title, s.(blocks := s.blocks + [b], codeLines := [], inCode := false), n + 1)
  {
    hide Laid, Join, PathAt, BlankLine, Titles, Open, IsFence, IsHeading, Path;
    NoHeadingStep(lines, n);
    HoldsGrows(lines, s.blocks, s.codeLines, s.codeStart, n);
    CodeEndOk(lines, title, s.blocks, s.codeLines + [lines[n]], s.codeStart, n + 1);
  }

  lemma FenceOpens(lines: seq<Located>, title: string, s: Scan, n: nat)
    requires n < |lines| && ScanOk(lines, title, s, n) && !s.inCode && IsFence(lines[n])
    ensures var blocks := FlushPending(s.blocks, Path(s.headings, title), s.pending, s.pendingStart, n);
            ScanOk(lines, title, Scan(blocks, s.headings, [], n + 1, true, [lines[n]], n + 1), n + 1)
  {
    hide Laid, FlushPending, PathAt, BlankLine, Titles, Open, IsFence, IsHeading, BlankBetween, Path;
    NoHeadingStep(lines, n);
    FlushOk(lines, title, s, n);
    HoldsStarts(lines, FlushPending(s.blocks, Path(s.headings, title), s.pending, s.pendingStart, n), n);
  }

  lemma CodeGrows(lines: seq<Located>, title: string, s: Scan, n: nat)
    requires n < |lines| && ScanOk(lines, title, s, n) && s.inCode && !IsFence(lines[n])
    ensures ScanOk(lines, title, s.(codeLines := s.codeLines + [lines[n]]), n + 1)
  {
    hide Laid, PathAt, BlankLine, Titles, Open, IsFence, IsHeading, BlankBetween;
    NoHeadingStep(lines, n);
    HoldsGrows(lines, s.blocks, s.codeLines, s.codeStart, n);
  }

  lemma HeadingStarts(lines: seq<Located>, title: string, s: Scan, n: nat)
    requires n < |lines| && ScanOk(lines, title, s, n) && !s.inCode && !IsFence(lines[n]) && IsHeading(lines[n])
    requires !BlankLine(lines[n])
    ensures var t := TitleOf(lines[n]);
            var blocks := FlushPending(s.blocks, Path(s.headings, title), s.pending, s.pendingStart, n);
            ScanOk(lines, title, s.(blocks := blocks, headings := Lower(s.headings, t.level) + [t],
                                    pending := [lines[n]], pendingStart := n + 1), n + 1)
  {
    hide Laid, FlushPending, PathAt, Open, Lower, IsFence, IsHeading, TitleOf, Path, BlankLine, BlankBetween;
    FlushOk(lines, title, s, n);
    HoldsStarts(lines, FlushPending(s.blocks, Path(s.headings, title), s.pending, s.pendingStart, n), n);
    OpenStep(Titles(lines, n), TitleOf(lines[n]));
  }

  lemma BlankFlushes(lines: seq<Located>, title: string, s: Scan, n: nat)
    requires n < |lines| && ScanOk(lines, title, s, n) && !s.inCode && !IsFence(lines[n]) && !IsHeading(lines[n])
    requires BlankLine(lines[n])
    ensures var blocks := FlushPending(s.blocks, Path(s.headings, title), s.pending, s.pendingStart, n);
            ScanOk(lines, title, s.(blocks := blocks, pending := [], pendingStart := n + 1), n + 1)
  {
    hide Laid, FlushPending, PathAt, Titles, Open, IsFence, IsHeading, Path, BlankLine, BlankBetween;
    NoHeadingStep(lines, n);
    FlushOk(lines, title, s, n);
    BlankStep(lines, LastEnd(FlushPending(s.blocks, Path(s.headings, title), s.pending, s.pendingStart, n)), n);
  }

  lemma TextGrows(lines: seq<Located>, title: string, s: Scan, n: nat)
    requires n < |lines| && ScanOk(lines, title, s, n) && !s.inCode && !IsFence(lines[n]) && !IsHeading(lines[n])
    requires !BlankLine(lines[n])
    ensures var start := if s.pending == [] then n + 1 else s.pendingStart;
            ScanOk(lines, title, s.(pending := s.pending + [lines[n]], pendingStart := start), n + 1)
  {
    hide Laid, PathAt, Titles, Open, IsFence, IsHeading, BlankLine, BlankBetween;
    NoHeadingStep(lines, n);
    if s.pending == [] {
      HoldsStarts(lines, s.blocks, n);
      assert s.pending + [lines[n]] == [lines[n]];
    } else {
      HoldsGrows(lines, s.blocks, s.pending, s.pendingStart, n);
    }
  }

  /** The end of the document closes a fence left open, or flushes what is pending. */
  lemma ScanEnds(lines: seq<Located>, title: string, s: Scan)
    requires ScanOk(lines, title, s, |lines|)
    ensures var n := |lines|;
            var code := Block(Path(s.headings, title), Join(s.codeLines, [NL]), CodeBlock, s.codeStart, n);
            var blocks := if s.inCode && s.codeLines != [] then s.blocks + [code] else s.blocks;
            var all := FlushPending(blocks, Path(s.headings, title), s.pending, s.pendingStart, n);
            Laid(lines, title, all) && LastEnd(all) <= n && BlankBetween(lines, LastEnd(all), n)
  {
    hide StripText, Join, Classify, Open, Titles, IsFence, Laid;
    HeldTextVisible([]);
    if s.inCode {
      CodeEndOk(lines, title, s.blocks, s.codeLines, s.codeStart, |lines|);
    } else {
      FlushOk(lines, title, s, |lines|);
    }
  }

  lemma ScanStarts(lines: seq<Located>, title: string)
    ensures ScanOk(lines, title, Scan([], [], [], 1, false, [], 1), 0)
  {
  }

  lemma ScanInCode(lines: seq<Located>, title: string, s: Scan, n: nat)
    requires n <= |lines| && ScanOk(lines, title, s, n)
    ensures s.inCode ==> s.pending == []
  {
    hide Laid, Open, Titles;
  }

  lemma WhatLineIs(line: Located)
    ensures var stripped := Strip(Chars(line));
            && (IsFence(line) <==> "```" <= stripped) && (BlankLine(line) <==> stripped == "")
            && TitleOf(line) == Title(Hashes(stripped), Strip(stripped[Hashes(stripped)..]))
            && (IsHeading(line) <==> "#" <= stripped && Strip(stripped[Hashes(stripped)..]) != "")
            && (IsHeading(line) ==> !BlankLine(line))
  {
    StripBlank(Chars(line));
  }

  method Parse(lines: seq<Located>, title: string) returns (blocks: seq<Block>)
    ensures Laid(lines, title, blocks)
    ensures LastEnd(blocks) <= |lines| && BlankBetween(lines, LastEnd(blocks), |lines|)
  {
    blocks := [];
    var headings: seq<Title> := [];
    var pending: seq<Located>, pendingStart: nat := [], 1;
    var inCode := false;
    var codeLines: seq<Located>, codeStart: nat := [], 1;
    hide *;
    ScanStarts(lines, title);
    for i := 0 to |lines|
      invariant ScanOk(lines, title, Scan(blocks, headings, pending, pendingStart, inCode, codeLines, codeStart), i)
    {
      var line := lines[i];
      var stripped := Strip(Chars(line));
      ghost var s := Scan(blocks, headings, pending, pendingStart, inCode, codeLines, codeStart);
      WhatLineIs(line);
      ScanInCode(lines, title, s, i);
      if "```" <= stripped {
        if inCode {
          FenceCloses(lines, title, s, i);
          codeLines := codeLines + [line];
          blocks := blocks + [Block(Path(headings, title), Join(codeLines, [NL]), CodeBlock, codeStart, i + 1)];
          codeLines, inCode := [], false;
        } else {
          FenceOpens(lines, title, s, i);
          blocks := FlushPending(blocks, Path(headings, title), pending, pendingStart, i);
          pending, pendingStart := [], i + 1;
          inCode, codeLines, codeStart := true, [line], i + 1;
        }
        continue;
      }
      if inCode {
        CodeGrows(lines, title, s, i);
        codeLines := codeLines + [line];
        continue;
      }
      if "#" <= stripped {
        var level := Hashes(stripped);
        var text := Strip(stripped[level..]);
        if text != "" {
          HeadingStarts(lines, title, s, i);
          blocks := FlushPending(blocks, Path(headings, title), pending, pendingStart, i);
          headings := Lower(headings, level) + [Title(level, text)];
          pending, pendingStart := [line], i + 1;
          continue;
        }
      }
      if stripped == "" {
        BlankFlushes(lines, title, s, i);
        blocks := FlushPending(blocks, Path(headings, title), pending, pendingStart, i);
        pending, pendingStart := [], i + 1;
        continue;
      }
      TextGrows(lines, title, s, i);
      if pending == [] {
        pendingStart := i + 1;
      }
      pending := pending + [line];
    }
    ScanEnds(lines, title, Scan(blocks, headings, pending, pendingStart, inCode, codeLines, codeStart));
    if inCode && codeLines != [] {
      blocks := blocks + [Block(Path(headings, title), Join(codeLines, [NL]), CodeBlock, codeStart, |lines|)];
    }
    blocks := FlushPending(blocks, Path(headings, title), pending, pendingStart, |lines|);
  }

  // ── the partition ──────────────────────────────────────────────

  lemma {:induction false} LaidInOrder(lines: seq<Located>, title: string, blocks: seq<Block>)
    requires Laid(lines, title, blocks)
    ensures forall k :: 0 <= k < |blocks| ==> BlockOk(lines, title, blocks[k]) && blocks[k].end <= LastEnd(blocks)
    ensures forall k, m :: 0 <= k < m < |blocks| ==> blocks[k].end < blocks[m].start
  {
    hide BlockOk;
    if blocks != [] {
      LaidInOrder(lines, title, blocks[..|blocks| - 1]);
      assert BlockOk(lines, title, blocks[|blocks| - 1]);
      BlockBounds(lines, title, blocks[|blocks| - 1]);
    }
  }

  lemma BlockBounds(lines: seq<Located>, title: string, b: Block)
    requires BlockOk(lines, title, b)
    ensures 1 <= b.start <= b.end <= |lines|
  {
  }

  predicate Covers(b: Block, line: nat) {
    b.start <= line <= b.end
  }

  /** Each non-blank line lies in some block, and by the order of the blocks in only one. */
  lemma {:induction false} EveryLineInOneBlock(lines: seq<Located>, title: string, blocks: seq<Block>, i: nat)
    requires Laid(lines, title, blocks) && i < |lines| && !BlankLine(lines[i])
    requires BlankBetween(lines, LastEnd(blocks), |lines|)
    ensures exists k :: 0 <= k < |blocks| && Covers(blocks[k], i + 1)
    ensures forall k, m :: 0 <= k < |blocks| && 0 <= m < |blocks| && Covers(blocks[k], i + 1) && Covers(blocks[m], i + 1) ==> k == m
  {
    LaidInOrder(lines, title, blocks);
    LineInSomeBlock(lines, title, blocks, i);
  }

  lemma {:induction false} LineInSomeBlock(lines: seq<Located>, title: string, blocks: seq<Block>, i: nat)
    requires Laid(lines, title, blocks) && i < |lines| && !BlankLine(lines[i])
    requires i < LastEnd(blocks)
    ensures exists k :: 0 <= k < |blocks| && Covers(blocks[k], i + 1)
  {
    hide BlockOk, BlankLine;
    var front, last := blocks[..|blocks| - 1], blocks[|blocks| - 1];
    if i < LastEnd(front) {
      LineInSomeBlock(lines, title, front, i);
      var k :| 0 <= k < |front| && Covers(front[k], i + 1);
      assert Covers(blocks[k], i + 1);
    } else {
      assert Covers(last, i + 1);
    }
  }
}
