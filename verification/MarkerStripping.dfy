/** Taking the marker lines out of a snapshot's text (agent/memory.py:251-262) before it is handed on. */
module MarkerStripping {
  import opened Text
  import opened Markers
  import opened CompactLines

  predicate IsMarkerLine(line: string) {
    MARKER_PREFIX <= line && |MARKER_SUFFIX| <= |line| && line[|line| - |MARKER_SUFFIX|..] == MARKER_SUFFIX
  }

  function Unmarked(lines: seq<string>): seq<string> {
    if lines == [] then []
    else (if IsMarkerLine(lines[0]) then [] else [lines[0]]) + Unmarked(lines[1..])
  }

  /** _strip_consolidation_markers */
  function StripMarkers(t: string): string {
    Strip(Joined(Unmarked(Lines(t)), '\n'))
  }

  /** What a text says, line by line: its lines without surrounding white space, blank ones dropped. */
  function Facts(t: string): seq<string> {
    Stripped(Lines(t))
  }

  // ── white space at the ends of lines and texts ─────────────────

  lemma {:induction false} LStripSnoc(s: string, c: char)
    requires IsSpace(c)
    ensures LStrip(s + [c]) == if LStrip(s) == "" then "" else LStrip(s) + [c]
  {
    if s == "" {
      assert s + [c] == [c];
    } else if IsSpace(s[0]) {
      assert (s + [c])[1..] == s[1..] + [c];
      LStripSnoc(s[1..], c);
    }
  }

  /** Strip does not see white space before or after. */
  lemma StripSpaces(s: string, c: char)
    requires IsSpace(c)
    ensures Strip([c] + s) == Strip(s) && Strip(s + [c]) == Strip(s)
  {
    assert ([c] + s)[1..] == s;
    LStripSnoc(s, c);
    var l := LStrip(s);
    assert (l + [c])[..|l|] == l;
    hide LStrip;
  }

  // ── facts of a text, piece by piece ────────────────────────────

  function FactOf(line: string): seq<string> {
    if Strip(line) == "" then [] else [Strip(line)]
  }

  lemma FactsCons(first: string, rest: seq<string>)
    ensures Stripped([first] + rest) == FactOf(first) + Stripped(rest)
  {
    assert ([first] + rest)[1..] == rest;
  }

  lemma FactsLine(line: string)
    requires BreakFree(line)
    ensures Facts(line) == FactOf(line)
  {
    if line != "" {
      FirstBreakAt(line, "");
      assert line + "" == line;
      LastLine(line);
      FactsCons(line, []);
      assert [line] + [] == [line] && FactOf(line) + [] == FactOf(line);
    }
  }

  /** The line up to the first break, and the text after it. */
  lemma LinesCons(line: string, c: char, rest: string)
    requires BreakFree(line) && LineBreak(c)
    ensures Lines(line + [c] + rest) == [line] + Lines(rest)
  {
    var t := line + [c] + rest;
    FirstBreakAt(line, [c] + rest);
    assert line + ([c] + rest) == t;
    assert t != "" && FirstBreak(t) < |t|;
    assert t[..|line|] == line && t[|line| + 1..] == rest;
    hide *;
    LinesStep(t);
  }

  lemma FactsStep(line: string, c: char, rest: string)
    requires BreakFree(line) && LineBreak(c)
    ensures Facts(line + [c] + rest) == FactOf(line) + Facts(rest)
  {
    hide Lines, Stripped, FactOf, BreakFree, LineBreak;
    LinesCons(line, c, rest);
    FactsCons(line, Lines(rest));
  }

  lemma HasBreak(s: string)
    requires !BreakFree(s)
    ensures FirstBreak(s) < |s|
  {
    BeforeBreak(s);
    assert s[..|s|] == s;
  }

  lemma CutAtBreak(s: string) returns (a: string, c: char, b: string)
    requires !BreakFree(s)
    ensures BreakFree(a) && LineBreak(c) && s == a + [c] + b
  {
    var n := FirstBreak(s);
    HasBreak(s);
    BeforeBreak(s);
    a, c, b := s[..n], s[n], s[n + 1..];
  }

  lemma NoFacts()
    ensures Facts("") == []
  {
  }

  /** White space around a text adds no fact. */
  lemma {:induction false} FactsSpace(c: char, s: string)
    requires IsSpace(c)
    ensures Facts([c] + s) == Facts(s) && Facts(s + [c]) == Facts(s)
    decreases |s|
  {
    NoFacts();
    if LineBreak(c) {
      FactsStep("", c, s);
      assert "" + [c] + s == [c] + s && FactOf("") == [];
      FactsBreakLast(s, c);
    } else if BreakFree(s) {
      assert BreakFree([c] + s) && BreakFree(s + [c]);
      hide *;
      FactsLine(s);
      FactsLine([c] + s);
      FactsLine(s + [c]);
      SameFact(s, c);
    } else {
      var a, b, r := CutAtBreak(s);
      assert BreakFree([c] + a);
      assert [c] + s == ([c] + a) + [b] + r && s + [c] == a + [b] + (r + [c]);
      hide *;
      FactsStep(a, b, r);
      FactsStep([c] + a, b, r);
      FactsStep(a, b, r + [c]);
      SameFact(a, c);
      FactsSpace(c, r);
    }
  }

  lemma SameFact(s: string, c: char)
    requires IsSpace(c)
    ensures FactOf([c] + s) == FactOf(s) && FactOf(s + [c]) == FactOf(s)
  {
    StripSpaces(s, c);
  }

  lemma {:induction false} FactsBreakLast(s: string, c: char)
    requires LineBreak(c)
    ensures Facts(s + [c]) == Facts(s)
    decreases |s|
  {
    NoFacts();
    if BreakFree(s) {
      hide *;
      FactsLine(s);
      FactsStep(s, c, "");
      assert s + [c] + "" == s + [c] && FactOf(s) + [] == FactOf(s);
    } else {
      hide *;
      var a, b, r := CutAtBreak(s);
      FactsStep(a, b, r);
      FactsStep(a, b, r + [c]);
      assert s + [c] == a + [b] + (r + [c]);
      FactsBreakLast(r, c);
    }
  }

  lemma {:induction false} FactsLStrip(s: string)
    ensures Facts(LStrip(s)) == Facts(s)
  {
    if s != "" && IsSpace(s[0]) {
      assert LStrip(s) == LStrip(s[1..]) && [s[0]] + s[1..] == s;
      hide *;
      FactsSpace(s[0], s[1..]);
      FactsLStrip(s[1..]);
    }
  }

  lemma {:induction false} FactsRStrip(s: string)
    ensures Facts(RStrip(s)) == Facts(s)
  {
    if s != "" && IsSpace(s[|s| - 1]) {
      var front, last := s[..|s| - 1], s[|s| - 1];
      assert RStrip(s) == RStrip(front) && front + [last] == s;
      hide *;
      FactsSpace(last, front);
      FactsRStrip(front);
    }
  }

  predicate AllBreakFree(lines: seq<string>) {
    forall i :: 0 <= i < |lines| ==> BreakFree(lines[i])
  }

  lemma {:induction false} FactsJoined(lines: seq<string>)
    requires AllBreakFree(lines)
    ensures Facts(Joined(lines, '\n')) == Stripped(lines)
  {
    if |lines| > 1 {
      var first, rest := lines[0], lines[1..];
      FactsJoined(rest);
      assert BreakFree(first) && LineBreak('\n') && lines == [first] + rest;
      assert Joined(lines, '\n') == first + ['\n'] + Joined(rest, '\n');
      hide *;
      FactsStep(first, '\n', Joined(rest, '\n'));
      FactsCons(first, rest);
    } else if lines != [] {
      assert BreakFree(lines[0]) && lines == [lines[0]] + [];
      FactsLine(lines[0]);
      FactsCons(lines[0], []);
      assert FactOf(lines[0]) + [] == FactOf(lines[0]);
    }
  }

  lemma {:induction false} LinesBreakFree(t: string)
    ensures AllBreakFree(Lines(t))
    decreases |t|
  {
    if t != "" {
      BeforeBreak(t);
      var n := FirstBreak(t);
      if n < |t| {
        LinesStep(t);
        LinesBreakFree(t[n + 1..]);
      } else {
        assert t[..n] == t;
        LastLine(t);
      }
      hide Lines, FirstBreak;
    }
  }

  lemma {:induction false} UnmarkedBreakFree(lines: seq<string>)
    requires AllBreakFree(lines)
    ensures AllBreakFree(Unmarked(lines))
  {
    if lines != [] {
      UnmarkedBreakFree(lines[1..]);
      assert BreakFree(lines[0]);
      hide BreakFree, IsMarkerLine;
    }
  }

  // ── what a snapshot hands on ───────────────────────────────────

  /** Exactly the facts outside marker lines are handed on, in order. */
  lemma StripMarkersKeepsFacts(t: string)
    ensures Facts(StripMarkers(t)) == Stripped(Unmarked(Lines(t)))
  {
    LinesBreakFree(t);
    UnmarkedBreakFree(Lines(t));
    FactsJoined(Unmarked(Lines(t)));
    var joined := Joined(Unmarked(Lines(t)), '\n');
    assert StripMarkers(t) == RStrip(LStrip(joined));
    hide *;
    FactsLStrip(joined);
    FactsRStrip(LStrip(joined));
  }

  /** A record of an idempotent append: the marker goes, the payload's own facts stay. */
  lemma RecordStripped(sourceRef: string, kind: string, payload: string)
    requires BreakFree(Marker(sourceRef, kind))
    ensures Facts(StripMarkers(Marker(sourceRef, kind) + "\n" + payload)) == Facts(StripMarkers(payload))
  {
    hide Lines, Unmarked, Facts, StripMarkers, Wrap, IsMarkerLine, BreakFree, Strip, Flat;
    var marker := Marker(sourceRef, kind);
    WrapIsMarked(Strip(Flat(sourceRef)), Strip(Flat(kind)));
    LinesCons(marker, '\n', payload);
    UnmarkedCons(marker, Lines(payload));
    assert [] + Unmarked(Lines(payload)) == Unmarked(Lines(payload));
    StripMarkersKeepsFacts(marker + "\n" + payload);
    StripMarkersKeepsFacts(payload);
  }

  lemma UnmarkedCons(first: string, rest: seq<string>)
    ensures Unmarked([first] + rest) == (if IsMarkerLine(first) then [] else [first]) + Unmarked(rest)
  {
    assert ([first] + rest)[1..] == rest;
  }

  lemma WrapIsMarked(src: string, kind: string)
    ensures IsMarkerLine(Wrap(src, kind))
  {
    var body := src + ":" + kind;
    assert Wrap(src, kind) == MARKER_PREFIX + (body + MARKER_SUFFIX) == (MARKER_PREFIX + body) + MARKER_SUFFIX;
  }

  /** The first piece of a broken marker is neither a marker line nor blank. */
  lemma FirstPiece(src: string, kind: string, a: string, c: char, b: string)
    requires Without(src, "<>") && Without(kind, "<>")
    requires Wrap(src, kind) == a + [c] + b && LineBreak(c)
    ensures !IsMarkerLine(a) && Strip(a) != ""
  {
    var w := Wrap(src, kind);
    assert w[0] == '<' && w[|a|] == c;
    assert a != "" && a[0] == w[0];
    StripBlank(a);
    if IsMarkerLine(a) {
      var i := |a| - 1;
      assert a[i] == a[|a| - |MARKER_SUFFIX|..][|MARKER_SUFFIX| - 1] == '>';
      assert (w + "\n")[i] == a[i];
      OnlyBrackets(src, kind, i);
    }
  }

  lemma {:induction false} FactsNone(s: string)
    ensures Facts(s) == [] ==> Blank(s)
    decreases |s|
  {
    if BreakFree(s) {
      FactsLine(s);
      StripBlank(s);
    } else {
      var a, c, r := CutAtBreak(s);
      StripBlank(a);
      hide Facts, Lines, Stripped, Strip, Blank, BreakFree, LineBreak;
      FactsStep(a, c, r);
      FactsNone(r);
      BlankAround(a, c, r);
    }
  }

  lemma BlankAround(a: string, c: char, b: string)
    requires LineBreak(c)
    ensures Blank(a) && Blank(b) ==> Blank(a + [c] + b)
  {
  }

  /** Nothing on the lines is a fact: each is a marker line or blank. */
  predicate NoFact(lines: seq<string>) {
    forall i :: 0 <= i < |lines| ==> IsMarkerLine(lines[i]) || Blank(lines[i])
  }

  lemma {:induction false} NoFactIff(lines: seq<string>)
    ensures Stripped(Unmarked(lines)) == [] <==> NoFact(lines)
  {
    if lines != [] {
      var first, rest := lines[0], lines[1..];
      assert lines == [first] + rest;
      NoFactIff(rest);
      UnmarkedCons(first, rest);
      StripBlank(first);
      hide IsMarkerLine, Strip, Blank, Unmarked, Stripped;
      if IsMarkerLine(first) {
        assert [] + Unmarked(rest) == Unmarked(rest);
      } else {
        FactsCons(first, Unmarked(rest));
      }
    }
  }

  lemma StripEnds(s: string)
    ensures Blank(Strip(s)) ==> Strip(s) == ""
  {
    LStripSpec(s);
    RStripSpec(LStrip(s));
  }

  /** A text is stripped away altogether if and only if every line of it is a marker line or blank. */
  lemma NothingLeftIff(t: string)
    ensures StripMarkers(t) == "" <==> NoFact(Lines(t))
  {
    StripMarkersKeepsFacts(t);
    NoFactIff(Lines(t));
    NoFacts();
    FactsNone(StripMarkers(t));
    StripEnds(Joined(Unmarked(Lines(t)), '\n'));
    hide Facts, Lines, Unmarked, Stripped, NoFact, Strip, Joined, Blank;
  }

  lemma OneMarkerLine(line: string)
    requires line != "" && BreakFree(line) && IsMarkerLine(line)
    ensures StripMarkers(line) == ""
  {
    FirstBreakAt(line, "");
    assert line + "" == line;
    LastLine(line);
    UnmarkedCons(line, []);
    assert [line] + [] == [line];
    hide Lines, IsMarkerLine, BreakFree;
  }

  /**
   The marker is built by replacing newlines only, but taken out line by line.  It disappears exactly
   when each of its lines is a marker line or blank; for keys without angle brackets this means that
   it holds no line break at all (a carriage return, say).  Otherwise its pieces look like facts.
   */
  lemma MarkerStrippedIff(src: string, kind: string)
    ensures StripMarkers(Wrap(src, kind)) == "" <==> NoFact(Lines(Wrap(src, kind)))
    ensures Without(src, "<>") && Without(kind, "<>") ==> (StripMarkers(Wrap(src, kind)) == "" <==> BreakFree(Wrap(src, kind)))
  {
    var w := Wrap(src, kind);
    NothingLeftIff(w);
    if BreakFree(w) {
      WrapIsMarked(src, kind);
      OneMarkerLine(w);
    } else if Without(src, "<>") && Without(kind, "<>") {
      var a, c, b := CutAtBreak(w);
      FirstPiece(src, kind, a, c, b);
      LinesCons(a, c, b);
      StripBlank(a);
      hide Lines, IsMarkerLine, StripMarkers, Strip, Blank, Wrap;
      assert Lines(w)[0] == a;
    }
  }

  /** A line of the shape of a marker. */
  function Framed(body: string): string {
    MARKER_PREFIX + body + MARKER_SUFFIX
  }

  lemma FramedLine(body: string)
    requires BreakFree(body)
    ensures IsMarkerLine(Framed(body)) && BreakFree(Framed(body)) && Lines(Framed(body)) == [Framed(body)]
  {
    var line := Framed(body);
    assert line == MARKER_PREFIX + (body + MARKER_SUFFIX);
    assert BreakFree(MARKER_PREFIX) && BreakFree(MARKER_SUFFIX);
    FirstBreakAt(line, "");
    assert line + "" == line;
    LastLine(line);
  }

  lemma TwoFrames(a: string, c: char, b: string, kind: string)
    ensures Wrap(a + MARKER_SUFFIX + [c] + MARKER_PREFIX + b, kind) == Framed(a) + [c] + Framed(b + ":" + kind)
  {
  }

  /** With angle brackets in the key a broken marker may disappear: both pieces are marker lines. */
  lemma BracketKeyStripped(a: string, c: char, b: string, kind: string)
    requires BreakFree(a) && BreakFree(b) && BreakFree(kind) && LineBreak(c)
    ensures var w := Wrap(a + MARKER_SUFFIX + [c] + MARKER_PREFIX + b, kind); !BreakFree(w) && StripMarkers(w) == ""
  {
    var first, second := Framed(a), Framed(b + ":" + kind);
    var w := first + [c] + second;
    TwoFrames(a, c, b, kind);
    FramedLine(a);
    FramedLine(b + ":" + kind);
    assert w[|first|] == c;
    hide Wrap, Framed, Lines, StripMarkers, IsMarkerLine;
    LinesCons(first, c, second);
    NothingLeftIff(w);
  }

  /** A key the code takes as it is, with a line break other than a newline: its marker leaves pieces behind. */
  lemma BrokenMarkerStays(src: string, kind: string, i: nat)
    requires NewlineFree(src) && NewlineFree(kind) && Strip(src) == src && Strip(kind) == kind
    requires Without(src, "<>") && Without(kind, "<>") && i < |src| && LineBreak(src[i])
    ensures Marker(src, kind) == Wrap(src, kind) && StripMarkers(Marker(src, kind)) != ""
  {
    assert Wrap(src, kind)[|MARKER_PREFIX| + i] == src[i];
    hide Strip, Flat, Wrap, StripMarkers, Lines, NoFact, Marker, Without;
    MarkerClean(src, kind);
    MarkerStrippedIff(src, kind);
  }

  lemma CarriageReturnKey()
    ensures var m := Marker("a\rb", "k"); m == Wrap("a\rb", "k") && StripMarkers(m) != ""
  {
    var src, kind := "a\rb", "k";
    StripClean(src);
    StripClean(kind);
    assert src[1] == '\r' && LineBreak('\r');
    assert NewlineFree(src) && NewlineFree(kind) && Without(src, "<>") && Without(kind, "<>");
    hide *;
    BrokenMarkerStays(src, kind, 1);
  }
}
