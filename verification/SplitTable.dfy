/** The table splitter of doc_rag/chunker.py: every part repeats the two header lines. */
module SplitTable {
  import opened Text
  import opened ChunkText
  import opened SplitText

  // ── _split_table ───────────────────────────────────────────────

  function NonBlank(lines: seq<Located>): seq<Located> {
    if lines == [] then []
    else
      var last := lines[|lines| - 1];
      NonBlank(lines[..|lines| - 1]) + if Blank(Chars(last)) then [] else [last]
  }

  function TableText(header: seq<Located>, rows: seq<Located>): Located {
    Join(header + rows, [NL])
  }

  function Flatten(groups: seq<seq<Located>>): seq<Located> {
    if groups == [] then [] else Flatten(groups[..|groups| - 1]) + groups[|groups| - 1]
  }

  /** Part k shows the header over group k, and exceeds the limit only as a single flagged row. */
  ghost predicate TablePart(cfg: Config, header: seq<Located>, rows: seq<Located>, part: Part) {
    && rows != []
    && part.content == TableText(header, rows)
    && (part.reason == FallbackSplit ==> |part.content| <= cfg.max)
    && (part.reason == UnbreakableTooLarge ==> |part.content| > cfg.max && |rows| == 1)
    && !part.reason.HeadingBlock?
  }

  /** The two header lines of a table over its row r alone. */
  predicate IsRow(t: Located, r: nat, content: Located) {
    var lines := NonBlank(SplitLines(t));
    2 <= r < |lines| && content == TableText(lines[..2], [lines[r]])
  }

  /** Parts over the limit are single rows. */
  ghost predicate FlaggedRows(t: Located, parts: seq<Part>) {
    forall k :: 0 <= k < |parts| && parts[k].reason == UnbreakableTooLarge ==> exists r: nat :: IsRow(t, r, parts[k].content)
  }

  ghost predicate TableParts(cfg: Config, header: seq<Located>, groups: seq<seq<Located>>, parts: seq<Part>) {
    |parts| == |groups| && forall k :: 0 <= k < |parts| ==> TablePart(cfg, header, groups[k], parts[k])
  }

  /** A group ends only where its next row would make the part too large. */
  ghost predicate Greedy(cfg: Config, header: seq<Located>, groups: seq<seq<Located>>) {
    forall k :: 0 <= k < |groups| - 1 ==> Full(cfg, header, groups[k], groups[k + 1])
  }

  predicate Full(cfg: Config, header: seq<Located>, g: seq<Located>, next: seq<Located>) {
    next != [] && |Join(header + g + [next[0]], [NL])| > cfg.max
  }

  /** What the two header lines and the rows of a table are split into. */
  ghost predicate TableSplit(cfg: Config, lines: seq<Located>, groups: seq<seq<Located>>, parts: seq<Part>)
    requires |lines| >= 2
  {
    TableParts(cfg, lines[..2], groups, parts) && Flatten(groups) == lines[2..] && Greedy(cfg, lines[..2], groups)
  }

  lemma {:induction false} TotalLengthAdd(a: seq<Located>, b: seq<Located>)
    ensures TotalLength(a + b) == TotalLength(a) + TotalLength(b)
  {
    if b == [] {
      assert a + b == a;
    } else {
      assert (a + b)[..|a + b| - 1] == a + b[..|b| - 1];
      TotalLengthAdd(a, b[..|b| - 1]);
    }
  }

  /** More rows, longer table: a row too large alone is too large after pending rows. */
  lemma LongerTable(header: seq<Located>, rows: seq<Located>, row: Located)
    requires header != []
    ensures |TableText(header, rows + [row])| >= |TableText(header, [row])|
    ensures |Join(header + rows + [row], [NL])| >= |TableText(header, rows)|
    ensures header + rows + [row] == header + (rows + [row]) && [] + [row] == [row]
  {
    Associative(header, rows, [row]);
    JoinLength(header + rows, [NL]);
    TotalLengthAdd(header + rows, [row]);
    JoinLength(header + (rows + [row]), [NL]);
    JoinLength(header + [row], [NL]);
    TotalLengthAdd(header, rows + [row]);
    TotalLengthAdd(header, [row]);
    TotalLengthAdd(rows, [row]);
  }

  lemma PendingRowsPart(cfg: Config, header: seq<Located>, rows: seq<Located>)
    requires rows != [] && |TableText(header, rows)| <= cfg.max
    ensures TablePart(cfg, header, rows, Part(TableText(header, rows), FallbackSplit))
  {
  }

  lemma OversizedRowPart(cfg: Config, header: seq<Located>, row: Located)
    requires |TableText(header, [row])| > cfg.max
    ensures TablePart(cfg, header, [row], Part(TableText(header, [row]), UnbreakableTooLarge))
  {
  }

  lemma TablePartsSnoc(cfg: Config, header: seq<Located>, groups: seq<seq<Located>>, parts: seq<Part>,
                       g: seq<Located>, part: Part)
    requires TableParts(cfg, header, groups, parts) && TablePart(cfg, header, g, part)
    ensures TableParts(cfg, header, groups + [g], parts + [part])
    ensures Flatten(groups + [g]) == Flatten(groups) + g
  {
    hide TablePart;
    assert (groups + [g])[..|groups|] == groups;
  }

  /** Where the loop stands after the rows `done`: parts made, and rows still pending. */
  ghost predicate Packed(cfg: Config, header: seq<Located>, done: seq<Located>, groups: seq<seq<Located>>, parts: seq<Part>, current: seq<Located>) {
    && TableParts(cfg, header, groups, parts) && Flatten(groups) + current == done && Greedy(cfg, header, groups)
    && (current != [] ==> |TableText(header, current)| <= cfg.max)
  }

  /** Why the last group ended before the rows in hand; without any, it is a row over the limit. */
  ghost predicate Ended(cfg: Config, header: seq<Located>, groups: seq<seq<Located>>, current: seq<Located>) {
    groups != [] ==>
      var last := groups[|groups| - 1];
      if current == [] then |TableText(header, last)| > cfg.max else Full(cfg, header, last, current)
  }

  /** The same before the row that comes next. */
  ghost predicate EndedBefore(cfg: Config, header: seq<Located>, groups: seq<seq<Located>>, current: seq<Located>, row: Located) {
    groups != [] ==> Full(cfg, header, groups[|groups| - 1], if current == [] then [row] else current)
  }

  lemma NextRow(cfg: Config, header: seq<Located>, groups: seq<seq<Located>>, current: seq<Located>, row: Located)
    requires Ended(cfg, header, groups, current) && header != []
    ensures EndedBefore(cfg, header, groups, current, row)
  {
    if groups != [] && current == [] {
      LongerTable(header, groups[|groups| - 1], row);
    }
  }

  lemma GreedySnoc(cfg: Config, header: seq<Located>, groups: seq<seq<Located>>, g: seq<Located>)
    requires Greedy(cfg, header, groups) && (groups != [] ==> Full(cfg, header, groups[|groups| - 1], g))
    ensures Greedy(cfg, header, groups + [g])
  {
    hide Full;
    var all := groups + [g];
    forall k | 0 <= k < |all| - 1 ensures Full(cfg, header, all[k], all[k + 1]) {
      assert k < |groups| - 1 ==> all[k + 1] == groups[k + 1];
    }
  }

  lemma FlushPacked(cfg: Config, header: seq<Located>, done: seq<Located>, groups: seq<seq<Located>>, parts: seq<Part>, current: seq<Located>)
    requires Packed(cfg, header, done, groups, parts, current) && current != [] && Ended(cfg, header, groups, current)
    ensures Packed(cfg, header, done, groups + [current], parts + [Part(TableText(header, current), FallbackSplit)], [])
  {
    PendingRowsPart(cfg, header, current);
    TablePartsSnoc(cfg, header, groups, parts, current, Part(TableText(header, current), FallbackSplit));
    GreedySnoc(cfg, header, groups, current);
    hide TableParts, TablePart, TableText, Flatten, Greedy, Full;
    assert done + [] == done;
  }

  lemma RowPacked(cfg: Config, header: seq<Located>, done: seq<Located>, groups: seq<seq<Located>>, parts: seq<Part>, current: seq<Located>, row: Located)
    requires Packed(cfg, header, done, groups, parts, current) && |TableText(header, current + [row])| <= cfg.max
    requires EndedBefore(cfg, header, groups, current, row)
    ensures Packed(cfg, header, done + [row], groups, parts, current + [row]) && Ended(cfg, header, groups, current + [row])
  {
    hide TableParts, TablePart, TableText, Flatten, Greedy;
    assert Flatten(groups) + (current + [row]) == Flatten(groups) + current + [row];
  }

  lemma OversizedPacked(cfg: Config, header: seq<Located>, done: seq<Located>, groups: seq<seq<Located>>, parts: seq<Part>, row: Located)
    requires Packed(cfg, header, done, groups, parts, []) && |TableText(header, [row])| > cfg.max
    requires EndedBefore(cfg, header, groups, [], row)
    ensures Packed(cfg, header, done + [row], groups + [[row]], parts + [Part(TableText(header, [row]), UnbreakableTooLarge)], [])
    ensures Ended(cfg, header, groups + [[row]], [])
  {
    OversizedRowPart(cfg, header, row);
    TablePartsSnoc(cfg, header, groups, parts, [row], Part(TableText(header, [row]), UnbreakableTooLarge));
    GreedySnoc(cfg, header, groups, [row]);
    hide TableParts, TablePart, TableText, Flatten, Greedy, Full;
    assert Flatten(groups) + [] == Flatten(groups) && done + [row] + [] == done + [row];
  }

  /** The inner flush(), when it is due before a row, with the variables it changes as results. */
  method Flush(due: bool, cfg: Config, header: seq<Located>, parts: seq<Part>, current: seq<Located>, ghost row: Located,
               ghost done: seq<Located>, ghost groups: seq<seq<Located>>)
    returns (parts': seq<Part>, current': seq<Located>, ghost groups': seq<seq<Located>>)
    requires Packed(cfg, header, done, groups, parts, current) && Ended(cfg, header, groups, current) && header != []
    requires due ==> current != [] && |TableText(header, current + [row])| > cfg.max
    ensures Packed(cfg, header, done, groups', parts', current') && EndedBefore(cfg, header, groups', current', row)
    ensures current' == if due then [] else current
  {
    hide *;
    NextRow(cfg, header, groups, current, row);
    parts', current', groups' := parts, current, groups;
    if due {
      FlushPacked(cfg, header, done, groups, parts, current);
      FlushedFull(cfg, header, groups, current, row);
      parts', current', groups' := parts + [Part(TableText(header, current), FallbackSplit)], [], groups + [current];
    }
  }

  /** The rows of the parts, concatenated, are exactly the rows given, in groups as large as the limit allows. */
  method SplitRows(cfg: Config, header: seq<Located>, rows: seq<Located>)
    returns (parts: seq<Part>, ghost groups: seq<seq<Located>>)
    requires header != []
    ensures TableParts(cfg, header, groups, parts)
    ensures Flatten(groups) == rows && Greedy(cfg, header, groups)
  {
    parts, groups := [], [];
    var current: seq<Located> := [];
    NothingPacked(cfg, header, rows);
    hide *;
    for i := 0 to |rows|
      invariant Packed(cfg, header, rows[..i], groups, parts, current) && Ended(cfg, header, groups, current)
    {
      var row := rows[i];
      var candidate := TableText(header, current + [row]);
      LongerTable(header, current, row);
      TakeStep(rows, i);
      parts, current, groups := Flush(current != [] && |candidate| > cfg.max, cfg, header, parts, current, row, rows[..i], groups);
      var single := TableText(header, [row]);
      if |single| > cfg.max {
        OversizedPacked(cfg, header, rows[..i], groups, parts, row);
        parts, groups := parts + [Part(single, UnbreakableTooLarge)], groups + [[row]];
      } else {
        RowPacked(cfg, header, rows[..i], groups, parts, current, row);
        current := current + [row];
      }
    }
    if current != [] {
      FlushPacked(cfg, header, rows, groups, parts, current);
      parts, groups, current := parts + [Part(TableText(header, current), FallbackSplit)], groups + [current], [];
    }
    AllPacked(cfg, header, rows, groups, parts);
  }

  lemma NothingPacked(cfg: Config, header: seq<Located>, rows: seq<Located>)
    ensures Packed(cfg, header, rows[..0], [], [], []) && Ended(cfg, header, [], []) && rows[..|rows|] == rows
  {
  }

  lemma FlushedFull(cfg: Config, header: seq<Located>, groups: seq<seq<Located>>, current: seq<Located>, row: Located)
    requires |TableText(header, current + [row])| > cfg.max
    ensures EndedBefore(cfg, header, groups + [current], [], row)
  {
    Associative(header, current, [row]);
  }

  lemma AllPacked(cfg: Config, header: seq<Located>, done: seq<Located>, groups: seq<seq<Located>>, parts: seq<Part>)
    requires Packed(cfg, header, done, groups, parts, [])
    ensures TableParts(cfg, header, groups, parts) && Flatten(groups) == done && Greedy(cfg, header, groups)
  {
    assert Flatten(groups) + [] == Flatten(groups);
  }

  // ── tables cover their blocks ──────────────────────────────────

  lemma {:induction false} NonBlankKeeps(lines: seq<Located>, x: Ch)
    requires InSome(lines, x) && Visible(x)
    ensures InSome(NonBlank(lines), x)
  {
    var front, last := lines[..|lines| - 1], lines[|lines| - 1];
    var n := NonBlank(lines);
    if x in last {
      StripTextEmptyIff(last);
      assert n[|n| - 1] == last;
    } else {
      var k :| 0 <= k < |lines| && x in lines[k];
      assert front[k] == lines[k];
      NonBlankKeeps(front, x);
      var m :| 0 <= m < |NonBlank(front)| && x in NonBlank(front)[m];
      assert n[m] == NonBlank(front)[m];
    }
  }

  lemma {:induction false} NonBlankMembers(lines: seq<Located>, l: Located)
    requires l in NonBlank(lines)
    ensures l in lines && !Blank(Chars(l))
  {
    var front, last := lines[..|lines| - 1], lines[|lines| - 1];
    if l != last {
      NonBlankMembers(front, l);
    } else if Blank(Chars(last)) {
      NonBlankMembers(front, l);
    }
  }

  lemma AppendPiece(ps: seq<Located>, last: Located)
    requires PiecesInOrder(ps) && InOrder(last) && forall p :: p in ps ==> AllBefore(p, last)
    ensures PiecesInOrder(ps + [last])
  {
    hide InOrder, AllBefore;
  }

  lemma {:induction false} NonBlankInOrder(lines: seq<Located>)
    requires PiecesInOrder(lines)
    ensures PiecesInOrder(NonBlank(lines))
  {
    hide InOrder, AllBefore;
    if lines != [] {
      var front, last := lines[..|lines| - 1], lines[|lines| - 1];
      NonBlankInOrder(front);
      forall p | p in NonBlank(front) ensures AllBefore(p, last) {
        NonBlankMembers(front, p);
        var k :| 0 <= k < |front| && front[k] == p;
        assert lines[k] == p;
      }
      AppendPiece(NonBlank(front), last);
      assert NonBlank(front) + [] == NonBlank(front);
    }
  }

  lemma {:induction false} FlattenFinds(groups: seq<seq<Located>>, row: Located)
    requires row in Flatten(groups)
    ensures exists k :: 0 <= k < |groups| && row in groups[k]
  {
    var front, last := groups[..|groups| - 1], groups[|groups| - 1];
    if row !in last {
      FlattenFinds(front, row);
      var k :| 0 <= k < |front| && row in front[k];
      assert row in groups[k];
    }
  }

  /** A group is a run of consecutive rows. */
  lemma {:induction false} GroupIsSlice(groups: seq<seq<Located>>, k: nat) returns (a: nat)
    requires k < |groups|
    ensures a + |groups[k]| <= |Flatten(groups)| && groups[k] == Flatten(groups)[a..a + |groups[k]|]
  {
    var front := groups[..|groups| - 1];
    if k == |groups| - 1 {
      a := |Flatten(front)|;
    } else {
      a := GroupIsSlice(front, k);
    }
  }

  lemma TablePieces(lines: seq<Located>, a: nat, b: nat)
    requires PiecesInOrder(lines) && 2 <= a <= b <= |lines|
    ensures PiecesInOrder(lines[..2] + lines[a..b])
  {
    hide InOrder, AllBefore;
    var ps := lines[..2] + lines[a..b];
    assert forall i :: 0 <= i < |ps| ==> ps[i] == lines[if i < 2 then i else a + i - 2];
  }

  lemma TableTextWithin(t: Located, lines: seq<Located>, ps: seq<Located>)
    requires lines == NonBlank(SplitLines(t)) && forall p :: p in ps ==> p in lines
    ensures forall x :: x in Join(ps, [NL]) && !Inserted(x) ==> x in t
  {
    forall x | x in Join(ps, [NL]) && !Inserted(x) ensures x in t {
      JoinOnlyHolds(ps, [NL], x);
      var m :| 0 <= m < |ps| && x in ps[m];
      NonBlankMembers(SplitLines(t), ps[m]);
      var n :| 0 <= n < |SplitLines(t)| && SplitLines(t)[n] == ps[m];
      SplitLinesWithin(t, n);
    }
  }

  lemma TableTextInOrder(t: Located, lines: seq<Located>, a: nat, b: nat)
    requires InOrder(t) && lines == NonBlank(SplitLines(t)) && 2 <= a <= b <= |lines|
    ensures InOrder(TableText(lines[..2], lines[a..b]))
  {
    hide InOrder, PiecesInOrder, NonBlank, SplitLines;
    SplitLinesInOrder(t);
    NonBlankInOrder(SplitLines(t));
    TablePieces(lines, a, b);
    JoinInOrder(lines[..2] + lines[a..b], [NL]);
  }

  /** A table part shows characters of the block only, in their order. */
  lemma TablePartOk(cfg: Config, t: Located, lines: seq<Located>, groups: seq<seq<Located>>, part: Part, k: nat)
    requires lines == NonBlank(SplitLines(t)) && |lines| >= 3
    requires Flatten(groups) == lines[2..] && k < |groups|
    requires TablePart(cfg, lines[..2], groups[k], part)
    ensures PartOk(cfg, t, part)
  {
    hide InOrder, NonBlank, SplitLines, Flatten, Join;
    var a := GroupIsSlice(groups, k);
    var g := groups[k];
    assert g == lines[2 + a..2 + a + |g|];
    JoinLength(lines[..2] + g, [NL]);
    TableTextWithin(t, lines, lines[..2] + g);
    if InOrder(t) {
      TableTextInOrder(t, lines, 2 + a, 2 + a + |g|);
    }
  }

  /** A flagged part is the header over one row of the table. */
  lemma FlaggedIsRow(cfg: Config, t: Located, lines: seq<Located>, groups: seq<seq<Located>>, part: Part, k: nat)
    requires lines == NonBlank(SplitLines(t)) && |lines| >= 3
    requires Flatten(groups) == lines[2..] && k < |groups|
    requires TablePart(cfg, lines[..2], groups[k], part) && part.reason == UnbreakableTooLarge
    ensures exists r: nat :: IsRow(t, r, part.content)
  {
    hide NonBlank, SplitLines, Flatten, TableText;
    var a := GroupIsSlice(groups, k);
    assert groups[k] == [lines[2 + a]];
    assert IsRow(t, 2 + a, part.content);
  }

  /** Every visible character of the block stands in some table part. */
  lemma TableCovers(cfg: Config, t: Located, lines: seq<Located>, groups: seq<seq<Located>>, parts: seq<Part>, x: Ch)
    requires lines == NonBlank(SplitLines(t)) && |lines| >= 3
    requires Flatten(groups) == lines[2..] && TableParts(cfg, lines[..2], groups, parts)
    requires x in t && Visible(x)
    ensures ShownIn(parts, x)
  {
    SplitLinesCovers(t, x);
    NonBlankKeeps(SplitLines(t), x);
    hide NonBlank, SplitLines, Flatten, Visible, Join;
    var m :| 0 <= m < |lines| && x in lines[m];
    var row := if m < 2 then lines[2] else lines[m];
    assert row == lines[2..][if m < 2 then 0 else m - 2];
    FlattenFinds(groups, row);
    var k :| 0 <= k < |groups| && row in groups[k];
    assert m < 2 ==> lines[..2][m] == lines[m];
    GroupShows(lines[..2], groups[k], row, x);
    assert TablePart(cfg, lines[..2], groups[k], parts[k]);
  }

  lemma GroupShows(header: seq<Located>, g: seq<Located>, row: Located, x: Ch)
    requires row in g && (x in row || InSome(header, x))
    ensures x in TableText(header, g)
  {
    var ps := header + g;
    if x in row {
      var i :| 0 <= i < |g| && g[i] == row;
      assert ps[|header| + i] == row;
      JoinHolds(ps, [NL], |header| + i);
    } else {
      var m :| 0 <= m < |header| && x in header[m];
      assert ps[m] == header[m];
      JoinHolds(ps, [NL], m);
    }
  }

  /**
   _split_table: fewer than three non-blank lines are split as text; otherwise every part shows the
   two header lines over a group of rows, and the groups are the rows in order.
   */
  method Split(cfg: Config, t: Located) returns (parts: seq<Part>, ghost groups: seq<seq<Located>>)
    requires cfg.max > 0
    ensures SplitOk(cfg, t, parts) && FlaggedRows(t, parts)
    ensures var lines := NonBlank(SplitLines(t));
            if |lines| < 3 then WithinLimit(cfg, parts) && IsTextSplit(cfg, t, parts) else TableSplit(cfg, lines, groups, parts)
  {
    groups := [];
    var lines := NonBlank(SplitLines(t));
    if |lines| < 3 {
      ghost var windows;
      parts, windows := SplitText.Split(cfg, t);
      SplitTextOk(cfg, t);
      return;
    }
    parts, groups := SplitRows(cfg, lines[..2], lines[2..]);
    hide NonBlank, SplitLines, Flatten, PartOk, Greedy;
    forall k | 0 <= k < |parts| ensures PartOk(cfg, t, parts[k]) {
      TablePartOk(cfg, t, lines, groups, parts[k], k);
    }
    forall k | 0 <= k < |parts| && parts[k].reason == UnbreakableTooLarge ensures exists r: nat :: IsRow(t, r, parts[k].content) {
      FlaggedIsRow(cfg, t, lines, groups, parts[k], k);
    }
    forall x | x in t && Visible(x) ensures ShownIn(parts, x) {
      TableCovers(cfg, t, lines, groups, parts, x);
    }
  }
}
