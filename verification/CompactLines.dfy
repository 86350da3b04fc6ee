/** The lines of a text, stripped and without the blank ones: the token budget works on them, and a snapshot is read by them. */
module CompactLines {
  import opened Text

  function FirstBreak(t: string): (n: nat)
    ensures n <= |t| && (n < |t| ==> LineBreak(t[n]))
  {
    if t == "" || LineBreak(t[0]) then 0 else 1 + FirstBreak(t[1..])
  }

  lemma {:induction false} BeforeBreak(t: string)
    ensures BreakFree(t[..FirstBreak(t)])
  {
    if t != "" && !LineBreak(t[0]) {
      BeforeBreak(t[1..]);
      var n := FirstBreak(t);
      assert t[..n] == [t[0]] + t[1..][..n - 1];
    }
  }

  predicate BreakFree(t: string) {
    forall i :: 0 <= i < |t| ==> !LineBreak(t[i])
  }

  /** splitlines, up to empty lines */
  function Lines(t: string): seq<string>
    decreases |t|
  {
    if t == "" then []
    else if FirstBreak(t) == |t| then [t]
    else [t[..FirstBreak(t)]] + Lines(t[FirstBreak(t) + 1..])
  }

  /** [line.strip() for line in lines if line.strip()] */
  function Stripped(lines: seq<string>): seq<string> {
    if lines == [] then []
    else (if Strip(lines[0]) == "" then [] else [Strip(lines[0])]) + Stripped(lines[1..])
  }

  function Compact(t: string): string {
    Joined(Stripped(Lines(t)), '\n')
  }

  lemma LinesStep(t: string)
    requires t != "" && FirstBreak(t) < |t|
    ensures var n := FirstBreak(t); Lines(t) == [t[..n]] + Lines(t[n + 1..])
  {
    hide FirstBreak, LineBreak;
  }

  lemma LastLine(t: string)
    requires t != "" && FirstBreak(t) == |t|
    ensures Lines(t) == [t]
  {
  }

  lemma BreakIsSpace(t: string)
    ensures var n := FirstBreak(t); n < |t| ==> IsSpace(t[n])
  {
  }

  // ── compacting twice ───────────────────────────────────────────

  /** A line as compacting leaves it. */
  predicate Trimmed(line: string) {
    line != "" && BreakFree(line) && Strip(line) == line
  }

  predicate AllTrimmed(lines: seq<string>) {
    forall i :: 0 <= i < |lines| ==> Trimmed(lines[i])
  }

  lemma StripTrimmed(s: string)
    requires BreakFree(s) && Strip(s) != ""
    ensures Trimmed(Strip(s))
  {
    LStripSpec(s);
    var l := LStrip(s);
    RStripSpec(l);
    var r := Strip(s);
    assert r[0] == l[0];
    assert LStrip(r) == r && RStrip(r) == r;
    forall i | 0 <= i < |r| ensures !LineBreak(r[i]) {
      assert r[i] == l[i] && l[i] == s[|s| - |l| + i];
    }
  }

  lemma StrippedCons(first: string, rest: seq<string>)
    requires AllTrimmed(Stripped(rest)) && BreakFree(first)
    ensures AllTrimmed(Stripped([first] + rest))
  {
    assert ([first] + rest)[1..] == rest;
    hide Trimmed, Strip;
    if Strip(first) != "" {
      StripTrimmed(first);
    }
  }

  lemma {:induction false} StrippedTrimmed(t: string)
    ensures AllTrimmed(Stripped(Lines(t)))
    decreases |t|
  {
    if t != "" {
      assert AllTrimmed(Stripped([]));
      hide *;
      BeforeBreak(t);
      var n := FirstBreak(t);
      if n < |t| {
        LinesStep(t);
        StrippedTrimmed(t[n + 1..]);
        StrippedCons(t[..n], Lines(t[n + 1..]));
      } else {
        LastLine(t);
        assert t[..n] == t;
        StrippedCons(t, []);
      }
    }
  }

  lemma {:induction false} FirstBreakAt(a: string, rest: string)
    requires BreakFree(a) && (rest == "" || LineBreak(rest[0]))
    ensures FirstBreak(a + rest) == |a|
  {
    if a != "" {
      FirstBreakAt(a[1..], rest);
      assert (a + rest)[1..] == a[1..] + rest;
    }
  }

  lemma {:induction false} TrimmedLinesStripped(ps: seq<string>)
    requires AllTrimmed(ps)
    ensures Stripped(ps) == ps
  {
    if ps != [] {
      TrimmedLinesStripped(ps[1..]);
      assert Trimmed(ps[0]);
      assert ps == [ps[0]] + ps[1..];
      hide Strip, BreakFree;
    }
  }

  lemma {:induction false} TrimmedLinesStay(ps: seq<string>)
    requires AllTrimmed(ps)
    ensures Lines(Joined(ps, '\n')) == ps
  {
    if |ps| == 1 {
      FirstBreakAt(ps[0], "");
      LastLine(ps[0] + "");
      assert ps[0] + "" == ps[0];
    } else if ps != [] {
      TrimmedLinesStay(ps[1..]);
      var tail := Joined(ps[1..], '\n');
      var all := ps[0] + "\n" + tail;
      assert Trimmed(ps[0]);
      FirstBreakAt(ps[0], "\n" + tail);
      assert ps[0] + ("\n" + tail) == all;
      LinesStep(all);
      assert all[..|ps[0]|] == ps[0] && all[|ps[0]| + 1..] == tail;
      assert ps == [ps[0]] + ps[1..];
      hide FirstBreak, Lines, Trimmed;
    }
  }

  lemma CompactTrimmed(ps: seq<string>)
    requires AllTrimmed(ps)
    ensures Compact(Joined(ps, '\n')) == Joined(ps, '\n')
  {
    TrimmedLinesStay(ps);
    TrimmedLinesStripped(ps);
  }
}
