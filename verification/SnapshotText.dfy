/** What a snapshot of PENDING.md hands on, in terms of the facts on record (agent/memory.py:193-262). */
module SnapshotText {
  import opened Text
  import opened PendingFiles
  import C = CompactLines
  import M = MarkerStripping

  /** What a text says: the non-blank lines outside marker lines, as splitlines and strip see them. */
  function Said(t: string): seq<string> {
    C.Stripped(M.Unmarked(C.Lines(t)))
  }

  /** What the facts say, one after the other; a fact may hold line breaks other than a newline. */
  function SaidBy(facts: seq<Fact>): seq<string> {
    if facts == [] then [] else Said(facts[0].line) + SaidBy(facts[1..])
  }

  lemma SaidByCons(first: seq<Fact>, rest: seq<Fact>)
    requires |first| <= 1
    ensures SaidBy(first + rest) == SaidBy(first) + SaidBy(rest)
  {
    if first != [] {
      assert (first + rest)[1..] == rest && first[1..] == [];
      assert Said(first[0].line) + [] == Said(first[0].line);
    } else {
      assert first + rest == rest;
    }
  }

  lemma UnmarkedSplit(line: string, rest: seq<string>)
    ensures C.Stripped(M.Unmarked([line] + rest)) == C.Stripped(M.Unmarked([line])) + C.Stripped(M.Unmarked(rest))
  {
    M.UnmarkedCons(line, rest);
    M.UnmarkedCons(line, []);
    assert [line] + [] == [line];
    hide M.IsMarkerLine, Strip;
    if M.IsMarkerLine(line) {
      assert [] + M.Unmarked(rest) == M.Unmarked(rest);
    } else {
      M.FactsCons(line, M.Unmarked(rest));
      M.FactsCons(line, []);
    }
  }

  lemma SaidOneLine(line: string)
    requires C.BreakFree(line)
    ensures Said(line) == C.Stripped(M.Unmarked([line]))
  {
    if line == "" {
      M.UnmarkedCons("", []);
      M.FactsCons("", []);
    } else {
      C.FirstBreakAt(line, "");
      assert line + "" == line;
      C.LastLine(line);
    }
  }

  lemma SaidFirst(line: string, c: char, rest: string)
    requires C.BreakFree(line) && LineBreak(c)
    ensures Said(line + [c] + rest) == Said(line) + Said(rest)
  {
    hide C.Lines, C.Stripped, M.Unmarked;
    M.LinesCons(line, c, rest);
    UnmarkedSplit(line, C.Lines(rest));
    SaidOneLine(line);
  }

  /** A text says what its parts around a line break say. */
  lemma {:induction false} SaidSplit(t: string, c: char, rest: string)
    requires LineBreak(c)
    ensures Said(t + [c] + rest) == Said(t) + Said(rest)
    decreases |t|
  {
    if C.BreakFree(t) {
      SaidFirst(t, c, rest);
    } else {
      hide *;
      var a, b, r := M.CutAtBreak(t);
      assert t + [c] + rest == a + [b] + (r + [c] + rest);
      SaidFirst(a, b, r + [c] + rest);
      SaidFirst(a, b, r);
      SaidSplit(r, c, rest);
      Associative(Said(a), Said(r), Said(rest));
    }
  }

  lemma NoFactCons(first: string, rest: seq<string>)
    ensures M.NoFact([first] + rest) <==> (M.IsMarkerLine(first) || Blank(first)) && M.NoFact(rest)
  {
    hide M.IsMarkerLine, Blank;
    var all := [first] + rest;
    assert all[0] == first && forall i :: 0 <= i < |rest| ==> all[i + 1] == rest[i];
  }

  lemma NoFactLine(line: string)
    requires Blank(line)
    ensures M.NoFact([]) && M.NoFact([line])
  {
  }

  lemma BlankPieces(t: string, n: nat)
    requires Blank(t) && n < |t|
    ensures Blank(t[..n]) && Blank(t[n + 1..])
  {
    hide IsSpace;
  }

  lemma {:induction false} BlankLines(t: string)
    requires Blank(t)
    ensures M.NoFact(C.Lines(t))
    decreases |t|
  {
    var n := C.FirstBreak(t);
    assert t == "" ==> C.Lines(t) == [];
    hide *;
    NoFactLine(t);
    if t != "" && n < |t| {
      BlankPieces(t, n);
      C.LinesStep(t);
      BlankLines(t[n + 1..]);
      NoFactCons(t[..n], C.Lines(t[n + 1..]));
    } else if t != "" {
      C.LastLine(t);
    }
  }

  lemma SaidKept(line: string)
    ensures SaidBy(Keep(line)) == Said(line)
  {
    if Blank(line) {
      BlankLines(line);
      M.NoFactIff(C.Lines(line));
    } else {
      assert [Fact(line)][1..] == [];
      assert Said(line) + [] == Said(line);
    }
  }

  lemma {:induction false} LinesSaid(t: string)
    ensures Said(t) == SaidBy(FactLines(t))
    decreases |t|
  {
    if t != "" {
      var line, rest, n := FirstLine(t), Rest(t), LineEnd(t);
      assert if n < |t| then t == line + ['\n'] + rest else line == t && rest == "";
      FactLinesStep(t);
      SaidByCons(Keep(line), FactLines(rest));
      SaidKept(line);
      assert Said("") == [] && LineBreak('\n');
      hide Said, SaidBy, FirstLine, Rest, Keep, FactLines;
      if n < |t| {
        SaidSplit(line, '\n', rest);
        LinesSaid(rest);
      } else {
        LinesSaid("");
      }
    }
  }

  /** The text a snapshot returns says exactly what the facts on record say outside marker lines, in order. */
  lemma SnapshotHandsOn(t: string)
    ensures M.Facts(M.StripMarkers(t)) == SaidBy(FactLines(t))
  {
    M.StripMarkersKeepsFacts(t);
    LinesSaid(t);
  }
}
