/** The plain splitter of doc_rag/chunker.py for blocks that exceed max_chunk_chars. */
module SplitText {
  import opened ChunkText

  datatype Config = Config(target: nat, max: nat, overlap: int)
  datatype Reason = HeadingBlock | FallbackSplit | UnbreakableTooLarge
  datatype Part = Part(content: Located, reason: Reason)

  // ── _split_text ────────────────────────────────────────────────

  /** t.rfind(c, lo, hi): the last place of c in t[lo..hi], or -1. */
  function RFind(t: Located, c: char, lo: nat, hi: nat): (p: int)
    requires lo <= hi <= |t|
    ensures p == -1 || lo <= p < hi
  {
    if hi == lo then -1
    else if t[hi - 1].c == c then hi - 1
    else RFind(t, c, lo, hi - 1)
  }

  lemma {:induction false} RFindIsLast(t: Located, c: char, lo: nat, hi: nat)
    requires lo <= hi <= |t|
    ensures var p := RFind(t, c, lo, hi);
            && (p >= 0 ==> t[p].c == c)
            && forall q :: lo <= q < hi && q > p ==> t[q].c != c
  {
    if hi > lo && t[hi - 1].c != c {
      RFindIsLast(t, c, lo, hi - 1);
    }
  }

  datatype Window = Window(start: nat, end: nat)

  /** The effective target never exceeds max. */
  function Target(cfg: Config): nat {
    if cfg.target < cfg.max then cfg.target else cfg.max
  }

  /** The effective overlap: at most half the effective target, and never negative. */
  function Overlap(cfg: Config): nat {
    var o := if cfg.overlap < Target(cfg) / 2 then cfg.overlap else Target(cfg) / 2;
    if o < 0 then 0 else o
  }

  /** Break at the last space before the target, else at the last newline before max, else at max. */
  function WindowEnd(cfg: Config, t: Located, start: nat): (end: nat)
    requires start < |t|
    ensures start <= end <= |t| && end - start <= cfg.max
    ensures cfg.max > 0 ==> start < end
  {
    var hardEnd := if start + cfg.max < |t| then start + cfg.max else |t|;
    if start + Target(cfg) >= |t| then |t|
    else
      var space := RFind(t, ' ', start, start + Target(cfg));
      if space > start then space
      else
        var newline := RFind(t, '\n', start, hardEnd);
        if newline > start then newline else hardEnd
  }

  function NextStart(cfg: Config, start: nat, end: nat): nat {
    if end > Overlap(cfg) && end - Overlap(cfg) > start then end - Overlap(cfg) else end
  }

  /** The next window starts further right exactly when the limit is positive; with zero the code's loop stands still. */
  lemma StallsIff(cfg: Config, t: Located, start: nat)
    requires start < |t|
    ensures NextStart(cfg, start, WindowEnd(cfg, t, start)) == start <==> cfg.max == 0
    ensures cfg.max == 0 ==> WindowEnd(cfg, t, start) == start < |t|
  {
    assert RFind(t, ' ', start, start) == -1 && RFind(t, '\n', start, start) == -1;
  }

  /** The windows from `start` on; the start of the next one always lies further right. */
  function Windows(cfg: Config, t: Located, start: nat): seq<Window>
    requires cfg.max > 0
    decreases |t| - start
  {
    if start >= |t| then []
    else
      var end := WindowEnd(cfg, t, start);
      [Window(start, end)] + if end >= |t| then [] else Windows(cfg, t, NextStart(cfg, start, end))
  }

  /**
   The windows sweep the text from `start`: each is non-empty and at most max wide, they start one
   after the other, leave no gap, and overlap by no more than the effective overlap.
   */
  ghost predicate SweepsFrom(cfg: Config, n: nat, w: seq<Window>, start: nat) {
    && w != [] && w[0].start == start && w[|w| - 1].end == n
    && (forall k :: 0 <= k < |w| ==> w[k].start < w[k].end <= n && w[k].end - w[k].start <= cfg.max)
    && (forall k :: 0 <= k < |w| - 1 ==> Follows(cfg, w[k], w[k + 1]))
  }

  predicate Follows(cfg: Config, v: Window, w: Window) {
    v.start < w.start <= v.end && v.end - w.start <= Overlap(cfg)
  }

  ghost predicate Sweeps(cfg: Config, n: nat, w: seq<Window>) {
    if n == 0 then w == [] else SweepsFrom(cfg, n, w, 0)
  }

  predicate Fits(t: Located, w: seq<Window>) {
    forall k :: 0 <= k < |w| ==> w[k].start <= w[k].end <= |t|
  }

  /** The stripped contents of the windows, blank ones dropped. */
  function Contents(t: Located, w: seq<Window>): seq<Located>
    requires Fits(t, w)
  {
    if w == [] then []
    else
      var last := w[|w| - 1];
      var part := StripText(t[last.start..last.end]);
      Contents(t, w[..|w| - 1]) + if part == [] then [] else [part]
  }

  function Plainly(contents: seq<Located>): (parts: seq<Part>)
    ensures |parts| == |contents|
    ensures forall k :: 0 <= k < |parts| ==> parts[k] == Part(contents[k], FallbackSplit)
  {
    seq(|contents|, k requires 0 <= k < |contents| => Part(contents[k], FallbackSplit))
  }

  lemma ContentsSnoc(t: Located, w: seq<Window>, v: Window)
    requires Fits(t, w)
    requires v.start <= v.end <= |t|
    ensures Fits(t, w + [v])
    ensures var part, parts := StripText(t[v.start..v.end]), Plainly(Contents(t, w));
            Plainly(Contents(t, w + [v])) == if part == [] then parts else parts + [Part(part, FallbackSplit)]
  {
    assert (w + [v])[..|w|] == w;
  }

  lemma WindowsStep(cfg: Config, t: Located, w: seq<Window>, start: nat)
    requires cfg.max > 0
    ensures start >= |t| ==> w + Windows(cfg, t, start) == w
    ensures start < |t| ==>
              var end, all := WindowEnd(cfg, t, start), w + Windows(cfg, t, start);
              if end >= |t| then all == w + [Window(start, end)]
              else all == w + [Window(start, end)] + Windows(cfg, t, NextStart(cfg, start, end))
  {
    hide WindowEnd, NextStart;
  }

  /** The end of the window that starts at `start`. */
  method FindEnd(cfg: Config, target: nat, t: Located, start: nat) returns (end: nat)
    requires cfg.max > 0 && start < |t| && target == Target(cfg)
    ensures end == WindowEnd(cfg, t, start)
  {
    var hardEnd := if start + cfg.max < |t| then start + cfg.max else |t|;
    end := if start + target < |t| then start + target else |t|;
    if end < |t| {
      var boundary := RFind(t, ' ', start, end);
      if boundary <= start {
        boundary := RFind(t, '\n', start, hardEnd);
      }
      if boundary > start {
        end := boundary;
      } else {
        end := hardEnd;
      }
    }
  }

  /** Terminates because `start` grows; the too-large branch is never taken. */
  method Split(cfg: Config, t: Located) returns (parts: seq<Part>, ghost windows: seq<Window>)
    requires cfg.max > 0
    ensures windows == Windows(cfg, t, 0)
    ensures Fits(t, windows)
    ensures parts == Plainly(Contents(t, windows)) && IsTextSplit(cfg, t, parts)
  {
    hide *;
    var target := if cfg.target < cfg.max then cfg.target else cfg.max;
    var overlap := if cfg.overlap < target / 2 then cfg.overlap else target / 2;
    if overlap < 0 {
      overlap := 0;
    }
    TargetAndOverlap(cfg);
    parts, windows := [], [];
    var start := 0;
    NoWindows(cfg, t);
    while start < |t|
      invariant 0 <= start
      invariant windows + Windows(cfg, t, start) == Windows(cfg, t, 0)
      invariant Fits(t, windows)
      invariant parts == Plainly(Contents(t, windows))
      decreases |t| - start
    {
      var end := FindEnd(cfg, target, t, start);
      WindowsStep(cfg, t, windows, start);
      var part := StripText(t[start..end]);
      StripTextShorter(t[start..end]);
      ContentsSnoc(t, windows, Window(start, end));
      if part != [] {
        var reason := if |part| > cfg.max then UnbreakableTooLarge else FallbackSplit;
        parts := parts + [Part(part, reason)];
      }
      windows := windows + [Window(start, end)];
      if end >= |t| {
        AllWindows(cfg, t, windows, parts);
        return;
      }
      var nextStart := if end - overlap > 0 then end - overlap else 0;
      if nextStart <= start {
        nextStart := end;
      }
      NextStartIs(cfg, start, end);
      start := nextStart;
    }
    WindowsStep(cfg, t, windows, start);
    AllWindows(cfg, t, windows, parts);
  }

  lemma TargetAndOverlap(cfg: Config)
    ensures var target := if cfg.target < cfg.max then cfg.target else cfg.max;
            var overlap := if cfg.overlap < target / 2 then cfg.overlap else target / 2;
            Target(cfg) == target && Overlap(cfg) == if overlap < 0 then 0 else overlap
  {
  }

  lemma NoWindows(cfg: Config, t: Located)
    requires cfg.max > 0
    ensures [] + Windows(cfg, t, 0) == Windows(cfg, t, 0) && Fits(t, []) && Plainly(Contents(t, [])) == []
  {
  }

  lemma NextStartIs(cfg: Config, start: nat, end: nat)
    requires start < end
    ensures var back := end - Overlap(cfg);
            NextStart(cfg, start, end) == if (if back > 0 then back else 0) <= start then end else back
  {
  }

  lemma AllWindows(cfg: Config, t: Located, windows: seq<Window>, parts: seq<Part>)
    requires cfg.max > 0 && windows == Windows(cfg, t, 0) && Fits(t, windows) && parts == Plainly(Contents(t, windows))
    ensures IsTextSplit(cfg, t, parts)
  {
  }

  lemma SweepCons(cfg: Config, n: nat, v: Window, w: seq<Window>)
    requires w != [] && SweepsFrom(cfg, n, w, w[0].start) && Follows(cfg, v, w[0])
    requires v.start < v.end <= n && v.end - v.start <= cfg.max
    ensures SweepsFrom(cfg, n, [v] + w, v.start)
  {
    hide Follows;
    var all := [v] + w;
    assert forall k :: 1 <= k < |all| ==> all[k] == w[k - 1];
  }

  lemma {:induction false} WindowsFrom(cfg: Config, t: Located, start: nat)
    requires cfg.max > 0 && start < |t|
    ensures SweepsFrom(cfg, |t|, Windows(cfg, t, start), start)
    decreases |t| - start
  {
    hide WindowEnd;
    var end := WindowEnd(cfg, t, start);
    if end < |t| {
      var next := NextStart(cfg, start, end);
      WindowsFrom(cfg, t, next);
      SweepCons(cfg, |t|, Window(start, end), Windows(cfg, t, next));
    }
  }

  /** The windows of every text sweep it. */
  lemma WindowsSweep(cfg: Config, t: Located)
    requires cfg.max > 0
    ensures Sweeps(cfg, |t|, Windows(cfg, t, 0))
  {
    if t != [] {
      WindowsFrom(cfg, t, 0);
    }
  }

  /** Every position of the text lies in some window. */
  lemma {:induction false} SweepReaches(cfg: Config, n: nat, w: seq<Window>, p: nat, k: nat)
    requires Sweeps(cfg, n, w) && p < n && k < |w| && p < w[k].end
    ensures exists i :: 0 <= i <= k && w[i].start <= p < w[i].end
  {
    if p < w[k].start {
      assert Follows(cfg, w[k - 1], w[k - 1 + 1]);
      SweepReaches(cfg, n, w, p, k - 1);
    }
  }

  lemma {:induction false} ContentsHold(t: Located, w: seq<Window>, k: nat, x: Ch)
    requires Fits(t, w)
    requires k < |w| && x in t[w[k].start..w[k].end] && Visible(x)
    ensures InSome(Contents(t, w), x)
  {
    var n := |w| - 1;
    var c := Contents(t, w);
    if k == n {
      StripTextKeeps(t[w[n].start..w[n].end]);
      assert x in c[|c| - 1];
    } else {
      ContentsHold(t, w[..n], k, x);
      var i :| 0 <= i < |Contents(t, w[..n])| && x in Contents(t, w[..n])[i];
      assert c[i] == Contents(t, w[..n])[i];
    }
  }

  predicate ShownIn(parts: seq<Part>, x: Ch) {
    exists k :: 0 <= k < |parts| && x in parts[k].content
  }

  /** Splitting plain text loses nothing visible, and every part is a stripped slice within the limit. */
  lemma SplitCovers(cfg: Config, t: Located, w: seq<Window>, x: Ch)
    requires Sweeps(cfg, |t|, w) && x in t && Visible(x)
    ensures Fits(t, w)
    ensures ShownIn(Plainly(Contents(t, w)), x)
  {
    var p :| 0 <= p < |t| && t[p] == x;
    SweepReaches(cfg, |t|, w, p, |w| - 1);
    var i :| 0 <= i < |w| && w[i].start <= p < w[i].end;
    assert t[w[i].start..w[i].end][p - w[i].start] == x;
    ContentsHold(t, w, i, x);
    var k :| 0 <= k < |Contents(t, w)| && x in Contents(t, w)[k];
    assert x in Plainly(Contents(t, w))[k].content;
  }

  /** What every part of a block satisfies besides covering it. */
  ghost predicate PartOk(cfg: Config, t: Located, part: Part) {
    && part.content != []
    && (forall x :: x in part.content && !Inserted(x) ==> x in t)
    && (InOrder(t) ==> InOrder(part.content))
    && (part.reason == UnbreakableTooLarge <==> |part.content| > cfg.max)
    && !part.reason.HeadingBlock?
  }

  lemma {:induction false} ContentsOk(cfg: Config, t: Located, w: seq<Window>)
    requires Fits(t, w) && forall k :: 0 <= k < |w| ==> w[k].end - w[k].start <= cfg.max
    ensures forall k :: 0 <= k < |Contents(t, w)| ==> PartOk(cfg, t, Part(Contents(t, w)[k], FallbackSplit))
  {
    if w != [] {
      var last := w[|w| - 1];
      ContentsOk(cfg, t, w[..|w| - 1]);
      StripTextKeeps(t[last.start..last.end]);
      if InOrder(t) {
        SliceInOrder(t, last.start, last.end);
        StripInOrder(t[last.start..last.end]);
      }
    }
  }

  /** What splitting a block promises, whichever splitter is used. */
  ghost predicate SplitOk(cfg: Config, t: Located, parts: seq<Part>) {
    && (forall x :: x in t && Visible(x) ==> ShownIn(parts, x))
    && (forall k :: 0 <= k < |parts| ==> PartOk(cfg, t, parts[k]))
  }

  /** The parts are the stripped windows of the text, without blank ones. */
  ghost predicate IsTextSplit(cfg: Config, t: Located, parts: seq<Part>)
    requires cfg.max > 0
  {
    var w := Windows(cfg, t, 0);
    Fits(t, w) && parts == Plainly(Contents(t, w))
  }

  // ── where windows end and start, in the text's own terms ───────

  /** p is the last place of c in t[lo..hi]. */
  predicate LastOf(t: Located, c: char, lo: nat, hi: nat, p: nat) {
    lo <= p < hi <= |t| && t[p].c == c && forall q :: p < q < hi ==> t[q].c != c
  }

  predicate NoneIn(t: Located, c: char, lo: nat, hi: nat) {
    hi <= |t| && forall q :: lo <= q < hi ==> t[q].c != c
  }

  function Min(a: int, b: int): int {
    if a < b then a else b
  }

  /**
   A window runs to the end of the text if the target reaches it; else to the last blank before the
   target; else to the last newline before the maximum; else to the maximum.
   */
  ghost predicate EndsRight(cfg: Config, t: Located, v: Window) {
    var target, hard := Min(cfg.target, cfg.max), Min(v.start + cfg.max, |t|);
    if v.start + target >= |t| then v.end == |t|
    else if !NoneIn(t, ' ', v.start + 1, v.start + target) then LastOf(t, ' ', v.start + 1, v.start + target, v.end)
    else if !NoneIn(t, '\n', v.start + 1, hard) then LastOf(t, '\n', v.start + 1, hard, v.end)
    else v.end == hard
  }

  /** The next window starts the overlap before the end of this one, unless that is no progress. */
  predicate StartsRight(cfg: Config, v: Window, w: Window) {
    var overlap := Min(cfg.overlap, Min(cfg.target, cfg.max) / 2);
    var back := v.end - if overlap > 0 then overlap else 0;
    w.start == if back > v.start then back else v.end
  }

  lemma EndRight(cfg: Config, t: Located, start: nat)
    requires start < |t|
    ensures EndsRight(cfg, t, Window(start, WindowEnd(cfg, t, start)))
  {
    hide RFind, NoneIn, LastOf;
    if start + Target(cfg) < |t| {
      FoundIffSome(t, ' ', start, start + Target(cfg));
      FoundIffSome(t, '\n', start, if start + cfg.max < |t| then start + cfg.max else |t|);
    }
  }

  lemma FoundIffSome(t: Located, c: char, start: nat, hi: nat)
    requires start <= hi <= |t|
    ensures var p := RFind(t, c, start, hi);
            if p > start then !NoneIn(t, c, start + 1, hi) && LastOf(t, c, start + 1, hi, p) else NoneIn(t, c, start + 1, hi)
  {
    RFindIsLast(t, c, start, hi);
  }

  /** Every window ends and starts by these rules, which leaves one sequence of windows. */
  lemma {:induction false} WindowsByRule(cfg: Config, t: Located, start: nat)
    requires cfg.max > 0
    ensures var w := Windows(cfg, t, start);
            && (start < |t| ==> w != [] && w[0].start == start)
            && (forall k :: 0 <= k < |w| ==> EndsRight(cfg, t, w[k]))
            && (forall k :: 0 <= k < |w| - 1 ==> StartsRight(cfg, w[k], w[k + 1]))
    decreases |t| - start
  {
    if start < |t| {
      hide WindowEnd, EndsRight;
      var end := WindowEnd(cfg, t, start);
      EndRight(cfg, t, start);
      if end < |t| {
        WindowsByRule(cfg, t, NextStart(cfg, start, end));
      }
    }
  }

  ghost predicate WithinLimit(cfg: Config, parts: seq<Part>) {
    forall k :: 0 <= k < |parts| ==> |parts[k].content| <= cfg.max
  }

  /** Plain splitting keeps the promise, and never exceeds the limit. */
  lemma SplitTextOk(cfg: Config, t: Located)
    requires cfg.max > 0
    ensures var w := Windows(cfg, t, 0);
            Fits(t, w) && SplitOk(cfg, t, Plainly(Contents(t, w))) && WithinLimit(cfg, Plainly(Contents(t, w)))
  {
    var w := Windows(cfg, t, 0);
    WindowsSweep(cfg, t);
    ContentsOk(cfg, t, w);
    forall x | x in t && Visible(x) ensures ShownIn(Plainly(Contents(t, w)), x) {
      SplitCovers(cfg, t, w, x);
    }
  }
}
